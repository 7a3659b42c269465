/** One session's lane: a gate that admits one run at a time, and an epoch whose generation fences off
    everyone who read it before a reset. The atomic sections of `enter`, `reset` and the drop of a
    permit are the steps of a state machine; any number of actors interleave them freely. */
module SessionLane {
  import opened Text

  const MAX_GENERATION: nat := 0xFFFF_FFFF_FFFF_FFFF

  type ActorId = nat

  /** Where one call of `enter`, and the permit it returned, stands. The generation and the
      cancellation token are those of the epoch the call read. */
  datatype Actor =
    | Waiting(generation: nat, token: nat)    // epoch read, queued at the gate
    | Holding(generation: nat, token: nat)    // gate taken, generation not yet checked
    | Checked(generation: nat, token: nat)    // generation check passed, permit not yet counted
    | Permitted(generation: nat, token: nat)  // permit live
    | Uncounted(generation: nat, token: nat)  // permit dropped, its guard not yet
    | Stale(generation: nat, token: nat)      // generation check failed, guard not yet dropped
    | Left(result: Result)

  datatype Result = Entered | CancelledError | StaleGenerationError

  /** `token` names the current epoch's cancellation token; older names are older epochs. */
  datatype Lane = Lane(
    generation: nat,
    token: nat,
    cancelled: set<nat>,
    gate: Option<ActorId>,
    active: int,
    actors: map<ActorId, Actor>)

  datatype Step =
    | ReadEpoch(a: ActorId)
    | ObserveCancel(a: ActorId)
    | TakeGate(a: ActorId)
    | CheckGeneration(a: ActorId)
    | CountPermit(a: ActorId)
    | UncountPermit(a: ActorId)
    | ReleaseGate(a: ActorId)
    | Reset

  const NEW_LANE := Lane(1, 0, {}, None, 0, map[])

  function SaturatingSuccessor(g: nat): nat
  {
    if g < MAX_GENERATION then g + 1 else MAX_GENERATION
  }

  function ResetLane(s: Lane): Lane
  {
    s.(cancelled := s.cancelled + {s.token}, generation := SaturatingSuccessor(s.generation), token := s.token + 1)
  }

  /** The state after a step, or None where the step cannot be taken. */
  function Apply(s: Lane, step: Step): Option<Lane>
  {
    match step
    case Reset => Some(ResetLane(s))
    case ReadEpoch(a) =>
      if a in s.actors then None else Some(s.(actors := s.actors[a := Waiting(s.generation, s.token)]))
    case ObserveCancel(a) =>
      if a in s.actors && s.actors[a].Waiting? && s.actors[a].token in s.cancelled
      then Some(s.(actors := s.actors[a := Left(CancelledError)])) else None
    case TakeGate(a) =>
      if a in s.actors && s.actors[a].Waiting? && s.gate.None?
      then Some(s.(gate := Some(a), actors := s.actors[a := Holding(s.actors[a].generation, s.actors[a].token)]))
      else None
    case CheckGeneration(a) =>
      if a in s.actors && s.actors[a].Holding? then
        var me := s.actors[a];
        Some(s.(actors := s.actors[a := if me.generation == s.generation then Checked(me.generation, me.token)
                                        else Stale(me.generation, me.token)]))
      else None
    case CountPermit(a) =>
      if a in s.actors && s.actors[a].Checked?
      then Some(s.(active := s.active + 1,
                   actors := s.actors[a := Permitted(s.actors[a].generation, s.actors[a].token)]))
      else None
    case UncountPermit(a) =>
      if a in s.actors && s.actors[a].Permitted?
      then Some(s.(active := s.active - 1,
                   actors := s.actors[a := Uncounted(s.actors[a].generation, s.actors[a].token)]))
      else None
    case ReleaseGate(a) =>
      if a in s.actors && (s.actors[a].Uncounted? || s.actors[a].Stale?)
      then Some(s.(gate := None,
                   actors := s.actors[a := Left(if s.actors[a].Uncounted? then Entered else StaleGenerationError)]))
      else None
  }

  function Exec(s: Lane, steps: seq<Step>): Option<Lane>
    decreases |steps|
  {
    if steps == [] then Some(s) else
    match Apply(s, steps[0])
    case Some(next) => Exec(next, steps[1..])
    case None => None
  }

  // ---- The invariant of every interleaving ----

  predicate HoldsGate(actor: Actor)
  {
    actor.Holding? || actor.Checked? || actor.Permitted? || actor.Uncounted? || actor.Stale?
  }

  /** Generations count tokens, up to saturation. */
  function GenerationOf(token: nat): nat
  {
    if token + 1 < MAX_GENERATION then token + 1 else MAX_GENERATION
  }

  ghost predicate Inv(s: Lane)
  {
    && s.generation == GenerationOf(s.token)
    && (forall t: nat :: t in s.cancelled <==> t < s.token)
    && (forall a :: a in s.actors && !s.actors[a].Left? ==>
          s.actors[a].token <= s.token && s.actors[a].generation == GenerationOf(s.actors[a].token))
    && (forall a :: a in s.actors && HoldsGate(s.actors[a]) ==> s.gate == Some(a))
    && (s.gate.Some? ==> s.gate.value in s.actors && HoldsGate(s.actors[s.gate.value]))
    && s.active == (if s.gate.Some? && s.actors[s.gate.value].Permitted? then 1 else 0)
  }

  lemma StepKeepsInv(s: Lane, step: Step)
    requires Inv(s) && Apply(s, step).Some?
    ensures Inv(Apply(s, step).value)
  {
  }

  lemma {:induction false} ExecKeepsInv(s: Lane, steps: seq<Step>)
    requires Inv(s) && Exec(s, steps).Some?
    ensures Inv(Exec(s, steps).value)
    decreases |steps|
  {
    if steps != [] {
      StepKeepsInv(s, steps[0]);
      ExecKeepsInv(Apply(s, steps[0]).value, steps[1..]);
    }
  }

  // ---- Safety over all interleavings ----

  function Permits(s: Lane): set<ActorId>
  {
    set a | a in s.actors && s.actors[a].Permitted?
  }

  /** At every moment of every interleaving at most one permit is live, and `active` counts it. */
  lemma AtMostOnePermit(steps: seq<Step>)
    requires Exec(NEW_LANE, steps).Some?
    ensures var s := Exec(NEW_LANE, steps).value;
      && s.active == |Permits(s)| <= 1
      && forall a, b :: a in Permits(s) && b in s.actors && HoldsGate(s.actors[b]) ==> a == b
  {
    ExecKeepsInv(NEW_LANE, steps);
    var s := Exec(NEW_LANE, steps).value;
    if s.active == 1 {
      assert Permits(s) == {s.gate.value};
    } else {
      assert Permits(s) == {};
    }
  }

  /** A permit's marker is current exactly while its token is not cancelled, whenever the resets fell;
      the only exception is a marker of the saturated generation, which stays current for good. */
  lemma PermitIsFencedByReset(steps: seq<Step>, a: ActorId)
    requires Exec(NEW_LANE, steps).Some? && a in Permits(Exec(NEW_LANE, steps).value)
    ensures var s := Exec(NEW_LANE, steps).value;
      var me := s.actors[a];
      me.generation == s.generation <==> me.token !in s.cancelled || me.generation == MAX_GENERATION
  {
    ExecKeepsInv(NEW_LANE, steps);
  }

  /** The exception is real: at the saturated generation a reset cancels the permit's token and leaves
      its marker current. */
  lemma SaturatedResetDoesNotFence(s: Lane, a: ActorId)
    requires Inv(s) && a in Permits(s) && s.actors[a].token == s.token && s.generation == MAX_GENERATION
    ensures var r := ResetLane(s);
      a in Permits(r) && r.actors[a].generation == r.generation && r.actors[a].token in r.cancelled
  {
  }

  function Resets(steps: seq<Step>): nat
  {
    if steps == [] then 0 else (if steps[0].Reset? then 1 else 0) + Resets(steps[1..])
  }

  lemma {:induction false} ResetsCountTokens(s: Lane, steps: seq<Step>)
    requires Exec(s, steps).Some?
    ensures Exec(s, steps).value.token == s.token + Resets(steps)
    decreases |steps|
  {
    if steps != [] {
      ResetsCountTokens(Apply(s, steps[0]).value, steps[1..]);
    }
  }

  lemma {:induction false} ExecAppend(s: Lane, first: seq<Step>, second: seq<Step>)
    requires Exec(s, first).Some?
    ensures Exec(s, first + second) == Exec(Exec(s, first).value, second)
    decreases |first|
  {
    if first == [] {
      assert first + second == second;
    } else {
      assert (first + second)[1..] == first[1..] + second;
      ExecAppend(Apply(s, first[0]).value, first[1..], second);
    }
  }

  /** The check a run makes before it may report success: its marker is still current if and only if
      no reset happened since the run read the lane epoch, or the generation was saturated already. */
  lemma CurrentMarkerMeansNoReset(before: seq<Step>, a: ActorId, since: seq<Step>)
    requires Exec(NEW_LANE, before + [ReadEpoch(a)] + since).Some?
    ensures Exec(NEW_LANE, before).Some?
    ensures var read := Exec(NEW_LANE, before).value;
      var end := Exec(NEW_LANE, before + [ReadEpoch(a)] + since).value;
      end.generation == read.generation <==> Resets(since) == 0 || read.generation == MAX_GENERATION
  {
    assert before + [ReadEpoch(a)] + since == before + ([ReadEpoch(a)] + since);
    PrefixRuns(NEW_LANE, before, [ReadEpoch(a)] + since);
    ExecAppend(NEW_LANE, before, [ReadEpoch(a)] + since);
    var read := Exec(NEW_LANE, before).value;
    assert ([ReadEpoch(a)] + since)[1..] == since;
    ResetsCountTokens(Apply(read, ReadEpoch(a)).value, since);
    ExecKeepsInv(NEW_LANE, before);
    ExecKeepsInv(NEW_LANE, before + [ReadEpoch(a)] + since);
  }

  /** A call of `enter`, and the permit it returns, keep the epoch they read. */
  lemma {:induction false} ActorKeepsItsEpoch(s: Lane, steps: seq<Step>, a: ActorId)
    requires a in s.actors && Exec(s, steps).Some?
    ensures var end := Exec(s, steps).value;
      && a in end.actors
      && (!end.actors[a].Left? ==>
            !s.actors[a].Left?
            && end.actors[a].generation == s.actors[a].generation && end.actors[a].token == s.actors[a].token)
    decreases |steps|
  {
    if steps != [] {
      ActorKeepsItsEpoch(Apply(s, steps[0]).value, steps[1..], a);
    }
  }

  /** So a permit's own marker is current if and only if no reset happened since its epoch was read, or its
      generation is the saturated one. */
  lemma MarkerIsCurrentIff(before: seq<Step>, a: ActorId, since: seq<Step>)
    requires Exec(NEW_LANE, before + [ReadEpoch(a)] + since).Some?
    requires a in Permits(Exec(NEW_LANE, before + [ReadEpoch(a)] + since).value)
    ensures var end := Exec(NEW_LANE, before + [ReadEpoch(a)] + since).value;
      end.actors[a].generation == end.generation <==>
        Resets(since) == 0 || end.actors[a].generation == MAX_GENERATION
  {
    hide Apply, Inv;
    CurrentMarkerMeansNoReset(before, a, since);
    PrefixRuns(NEW_LANE, before + [ReadEpoch(a)], since);
    ExecAppend(NEW_LANE, before + [ReadEpoch(a)], since);
    ExecAppend(NEW_LANE, before, [ReadEpoch(a)]);
    var read := Exec(NEW_LANE, before).value;
    ReadingTheEpoch(read, a);
    ActorKeepsItsEpoch(Exec(NEW_LANE, before + [ReadEpoch(a)]).value, since, a);
  }

  lemma ReadingTheEpoch(s: Lane, a: ActorId)
    ensures Exec(s, [ReadEpoch(a)]).Some? ==>
      var r := Exec(s, [ReadEpoch(a)]).value; a in r.actors && r.actors[a] == Waiting(s.generation, s.token)
  {
    assert [ReadEpoch(a)][1..] == [];
  }

  lemma {:induction false} PrefixRuns(s: Lane, first: seq<Step>, second: seq<Step>)
    ensures Exec(s, first + second).Some? ==> Exec(s, first).Some?
    decreases |first|
  {
    if first != [] && Apply(s, first[0]).Some? {
      assert (first + second)[1..] == first[1..] + second;
      PrefixRuns(Apply(s, first[0]).value, first[1..], second);
    }
  }

  /** The caller was turned away, or will be. */
  predicate TurnedAway(actor: Actor)
  {
    actor.Stale? || actor == Left(CancelledError) || actor == Left(StaleGenerationError)
  }

  lemma {:induction false} NotTurnedAwayBeforeReset(s: Lane, steps: seq<Step>, a: ActorId)
    requires Inv(s) && Exec(s, steps).Some? && a in s.actors && !TurnedAway(s.actors[a])
    requires !s.actors[a].Left? ==> s.actors[a].token == s.token
    requires Resets(steps) == 0
    ensures var end := Exec(s, steps).value; a in end.actors && !TurnedAway(end.actors[a])
    decreases |steps|
  {
    if steps != [] {
      StepKeepsInv(s, steps[0]);
      NotTurnedAwayBeforeReset(Apply(s, steps[0]).value, steps[1..], a);
    }
  }

  predicate FoundStale(actor: Actor)
  {
    actor.Stale? || actor == Left(StaleGenerationError)
  }

  lemma {:induction false} SaturatedIsNeverStale(s: Lane, steps: seq<Step>, a: ActorId)
    requires Exec(s, steps).Some? && a in s.actors && !FoundStale(s.actors[a]) && s.generation == MAX_GENERATION
    requires !s.actors[a].Left? ==> s.actors[a].generation == MAX_GENERATION
    ensures var end := Exec(s, steps).value; a in end.actors && !FoundStale(end.actors[a])
    decreases |steps|
  {
    if steps != [] {
      SaturatedIsNeverStale(Apply(s, steps[0]).value, steps[1..], a);
    }
  }

  /** A caller of `enter` is turned away, as cancelled or as stale, only when a reset fell after it had read the
      epoch; a caller turned away as stale had read a generation below the saturated one. */
  lemma TurnedAwayOnlyByReset(before: seq<Step>, a: ActorId, since: seq<Step>)
    requires Exec(NEW_LANE, before + [ReadEpoch(a)] + since).Some?
    ensures Exec(NEW_LANE, before).Some?
    ensures var end := Exec(NEW_LANE, before + [ReadEpoch(a)] + since).value;
      && a in end.actors
      && (TurnedAway(end.actors[a]) ==> Resets(since) > 0)
      && (FoundStale(end.actors[a]) ==>
            Exec(NEW_LANE, before).value.generation < MAX_GENERATION)
  {
    hide Apply, Inv, TurnedAway;
    PrefixRuns(NEW_LANE, before + [ReadEpoch(a)], since);
    PrefixRuns(NEW_LANE, before, [ReadEpoch(a)]);
    ExecAppend(NEW_LANE, before + [ReadEpoch(a)], since);
    ExecAppend(NEW_LANE, before, [ReadEpoch(a)]);
    ReadingTheEpoch(Exec(NEW_LANE, before).value, a);
    InvAtStart();
    ExecKeepsInv(NEW_LANE, before + [ReadEpoch(a)]);
    var read := Exec(NEW_LANE, before + [ReadEpoch(a)]).value;
    Newcomer(Exec(NEW_LANE, before).value, a);
    if Resets(since) == 0 {
      NotTurnedAwayBeforeReset(read, since, a);
    }
    GenerationsAreBounded(read);
    if read.generation == MAX_GENERATION {
      SaturatedIsNeverStale(read, since, a);
    }
    ActorKeepsItsEpoch(read, since, a);
  }

  /** A caller still queued can leave as cancelled if and only if a reset fell since it read the epoch. */
  lemma QueuedCallerMayLeaveIff(before: seq<Step>, a: ActorId, since: seq<Step>)
    requires Exec(NEW_LANE, before + [ReadEpoch(a)] + since).Some?
    requires var end := Exec(NEW_LANE, before + [ReadEpoch(a)] + since).value;
      a in end.actors && end.actors[a].Waiting?
    ensures var end := Exec(NEW_LANE, before + [ReadEpoch(a)] + since).value;
      var left := Apply(end, ObserveCancel(a));
      && (left.Some? <==> Resets(since) > 0)
      && (left.Some? ==> left.value == end.(actors := end.actors[a := Left(CancelledError)]))
  {
    hide Inv, Apply;
    PrefixRuns(NEW_LANE, before + [ReadEpoch(a)], since);
    PrefixRuns(NEW_LANE, before, [ReadEpoch(a)]);
    ExecAppend(NEW_LANE, before + [ReadEpoch(a)], since);
    ExecAppend(NEW_LANE, before, [ReadEpoch(a)]);
    var read := Exec(NEW_LANE, before + [ReadEpoch(a)]).value;
    ReadingTheEpoch(Exec(NEW_LANE, before).value, a);
    Newcomer(Exec(NEW_LANE, before).value, a);
    ActorKeepsItsEpoch(read, since, a);
    ResetsCountTokens(read, since);
    InvAtStart();
    ExecKeepsInv(NEW_LANE, before + [ReadEpoch(a)] + since);
    CancelledTokensAreOlder(Exec(NEW_LANE, before + [ReadEpoch(a)] + since).value, a);
  }

  lemma CancelledTokensAreOlder(s: Lane, a: ActorId)
    requires Inv(s) && a in s.actors && s.actors[a].Waiting?
    ensures var left := Apply(s, ObserveCancel(a));
      && (left.Some? <==> s.actors[a].token < s.token)
      && (left.Some? ==> left.value == s.(actors := s.actors[a := Left(CancelledError)]))
  {
  }

  lemma GenerationsAreBounded(s: Lane)
    requires Inv(s)
    ensures s.generation <= MAX_GENERATION
  {
  }

  lemma Newcomer(s: Lane, a: ActorId)
    ensures Exec(s, [ReadEpoch(a)]).Some? ==>
      var r := Exec(s, [ReadEpoch(a)]).value; r.token == s.token && r.generation == s.generation
    ensures !TurnedAway(Waiting(s.generation, s.token)) && !FoundStale(Waiting(s.generation, s.token))
  {
    assert [ReadEpoch(a)][1..] == [];
  }

  predicate FencedOff(s: Lane, a: ActorId)
  {
    && a in s.actors
    && !s.actors[a].Checked? && !s.actors[a].Permitted? && !s.actors[a].Uncounted?
    && (s.actors[a].Left? ==> s.actors[a].result != Entered)
    && (s.actors[a].Waiting? || s.actors[a].Holding? ==>
          s.actors[a].token in s.cancelled && s.actors[a].generation < MAX_GENERATION)
  }

  lemma StepKeepsFence(s: Lane, a: ActorId, step: Step)
    requires Inv(s) && FencedOff(s, a) && Apply(s, step).Some?
    ensures FencedOff(Apply(s, step).value, a)
  {
    var me := s.actors[a];
    assert me.Holding? ==> me.generation == GenerationOf(me.token) && me.token < s.token;
  }

  lemma {:induction false} FencedOffForGood(s: Lane, a: ActorId, steps: seq<Step>)
    requires Inv(s) && FencedOff(s, a) && Exec(s, steps).Some?
    ensures FencedOff(Exec(s, steps).value, a)
    decreases |steps|
  {
    hide Inv, FencedOff, Apply;
    if steps != [] {
      StepKeepsInv(s, steps[0]);
      StepKeepsFence(s, a, steps[0]);
      FencedOffForGood(Apply(s, steps[0]).value, a, steps[1..]);
    }
  }

  /** A call of `enter` that read the epoch before a reset and had not passed its generation check by
      then never gets a permit, whatever happens afterwards. */
  lemma ResetFencesTheQueue(before: seq<Step>, a: ActorId, after: seq<Step>)
    requires Exec(NEW_LANE, before + [Reset] + after).Some? && Exec(NEW_LANE, before).Some?
    requires var s := Exec(NEW_LANE, before).value;
      && a in s.actors && (s.actors[a].Waiting? || s.actors[a].Holding?)
      && s.actors[a].generation < MAX_GENERATION
    ensures var s := Exec(NEW_LANE, before + [Reset] + after).value;
      a in s.actors && a !in Permits(s) && s.actors[a] != Left(Entered)
  {
    var s := Exec(NEW_LANE, before).value;
    assert before + [Reset] + after == before + ([Reset] + after);
    ExecAppend(NEW_LANE, before, [Reset] + after);
    assert ([Reset] + after)[1..] == after;
    ExecKeepsInv(NEW_LANE, before);
    StepKeepsInv(s, Reset);
    FencedOffForGood(ResetLane(s), a, after);
  }

  // ---- The queue at the saturated generation ----

  function StagesLeft(actor: Actor): nat
  {
    match actor
    case Holding(_, _) => 4
    case Checked(_, _) => 3
    case Permitted(_, _) => 2
    case _ => 1
  }

  function NextOfHolder(a: ActorId, actor: Actor): Step
  {
    match actor
    case Holding(_, _) => CheckGeneration(a)
    case Checked(_, _) => CountPermit(a)
    case Permitted(_, _) => UncountPermit(a)
    case _ => ReleaseGate(a)
  }

  /** Whoever holds the gate can leave it, without resetting the lane or touching anybody else. */
  lemma GateCanBeFreed(s: Lane, a: ActorId) returns (steps: seq<Step>)
    requires Inv(s) && a in s.actors && s.gate != Some(a)
    ensures Exec(s, steps).Some?
    ensures var end := Exec(s, steps).value;
      end.gate.None? && end.actors[a := s.actors[a]] == end.actors && end.generation == s.generation
    decreases if s.gate.None? then 0 else StagesLeft(s.actors[s.gate.value])
  {
    if s.gate.None? {
      return [];
    }
    var step := NextOfHolder(s.gate.value, s.actors[s.gate.value]);
    StepKeepsInv(s, step);
    var rest := GateCanBeFreed(Apply(s, step).value, a);
    steps := [step] + rest;
    assert steps[1..] == rest;
  }

  /** From the queue or the gate, on an unchanged generation, a caller can go on to its permit. */
  lemma CallerCanEnter(s: Lane, a: ActorId) returns (steps: seq<Step>)
    requires Inv(s) && a in s.actors && (s.actors[a].Holding? || (s.actors[a].Waiting? && s.gate.None?))
    requires s.actors[a].generation == s.generation
    ensures Exec(s, steps).Some? && a in Permits(Exec(s, steps).value)
    decreases s.actors[a].Waiting?
  {
    if s.actors[a].Waiting? {
      var later := CallerCanEnter(Apply(s, TakeGate(a)).value, a);
      steps := [TakeGate(a)] + later;
      assert steps[1..] == later;
    } else {
      var checked := Apply(s, CheckGeneration(a)).value;
      steps := [CheckGeneration(a), CountPermit(a)];
      assert steps[1..] == [CountPermit(a)] && [CountPermit(a)][1..] == [];
      assert Exec(checked, [CountPermit(a)]) == Apply(checked, CountPermit(a));
    }
  }

  /** The fence of a reset, exactly: a caller in the queue or at the gate when the reset falls can still get a
      permit afterwards if and only if the generation it read is the saturated one. */
  lemma ResetFencesTheQueueIff(s: Lane, a: ActorId)
    requires Inv(s) && a in s.actors && (s.actors[a].Waiting? || s.actors[a].Holding?)
    ensures (exists after :: Exec(ResetLane(s), after).Some? && a in Permits(Exec(ResetLane(s), after).value))
       <==> s.actors[a].generation == MAX_GENERATION
  {
    var r := ResetLane(s);
    StepKeepsInv(s, Reset);
    if s.actors[a].generation < MAX_GENERATION {
      forall after | Exec(r, after).Some? ensures a !in Permits(Exec(r, after).value) {
        FencedOffForGood(r, a, after);
      }
    } else {
      var free: seq<Step> := [];
      if r.gate != Some(a) {
        free := GateCanBeFreed(r, a);
      }
      var enter := CallerEnters(r, a, free);
      assert Exec(r, free + enter).Some? && a in Permits(Exec(r, free + enter).value);
    }
  }

  lemma CallerEnters(r: Lane, a: ActorId, free: seq<Step>) returns (enter: seq<Step>)
    requires Inv(r) && a in r.actors && (r.actors[a].Holding? || r.actors[a].Waiting?)
    requires r.actors[a].generation == r.generation && Exec(r, free).Some?
    requires var mid := Exec(r, free).value;
      && a in mid.actors && mid.actors[a] == r.actors[a] && mid.generation == r.generation
      && (r.actors[a].Holding? || (r.actors[a].Waiting? && mid.gate.None?))
    ensures Exec(r, free + enter).Some? && a in Permits(Exec(r, free + enter).value)
  {
    ExecKeepsInv(r, free);
    enter := CallerCanEnter(Exec(r, free).value, a);
    ExecAppend(r, free, enter);
  }

  /** The saturated generation is reached: by as many resets as it takes. */
  lemma {:induction false} ManyResets(n: nat)
    ensures Exec(NEW_LANE, seq(n, _ => Reset)).Some?
    ensures var s := Exec(NEW_LANE, seq(n, _ => Reset)).value;
      s.generation == GenerationOf(n) && s.token == n && s.actors == map[] && s.gate.None?
  {
    if n > 0 {
      ManyResets(n - 1);
      var shorter := seq(n - 1, _ => Reset);
      assert seq(n, _ => Reset) == shorter + [Reset];
      ExecAppend(NEW_LANE, shorter, [Reset]);
      assert [Reset][1..] == [];
    }
  }

  /** So the exception happens: after enough resets a caller gets its permit past one more. */
  lemma SaturatedQueueIsAdmitted(a: ActorId) returns (before: seq<Step>, after: seq<Step>)
    ensures Exec(NEW_LANE, before).Some?
    ensures a in Exec(NEW_LANE, before).value.actors && Exec(NEW_LANE, before).value.actors[a].Waiting?
    ensures Exec(NEW_LANE, before + [Reset] + after).Some?
    ensures a in Permits(Exec(NEW_LANE, before + [Reset] + after).value)
  {
    hide Permits, Inv;
    var resets := seq(MAX_GENERATION, _ => Reset);
    ManyResets(MAX_GENERATION);
    before := resets + [ReadEpoch(a)];
    ExecAppend(NEW_LANE, resets, [ReadEpoch(a)]);
    assert [ReadEpoch(a)][1..] == [];
    var s := Exec(NEW_LANE, before).value;
    InvAtStart();
    ExecKeepsInv(NEW_LANE, before);
    ResetFencesTheQueueIff(s, a);
    after :| Exec(ResetLane(s), after).Some? && a in Permits(Exec(ResetLane(s), after).value);
    assert ([Reset] + after)[1..] == after;
    ExecAppend(NEW_LANE, before, [Reset] + after);
    assert before + ([Reset] + after) == before + [Reset] + after;
  }

  lemma InvAtStart()
    ensures Inv(NEW_LANE)
  {
  }

  // ---- The lanes of all sessions ----

  type SessionId = string

  function LaneOf(lanes: map<SessionId, Lane>, session: SessionId): Lane
  {
    if session in lanes then lanes[session] else NEW_LANE
  }

  datatype LaneMarker = LaneMarker(session: SessionId, generation: nat)

  /** The shared table. Each method is one atomic section of the source: what it does to the lane of
      its session is the step named in its contract, and no other lane changes. */
  class SessionLanes {
    var lanes: map<SessionId, Lane>

    ghost predicate Valid()
      reads this
    {
      forall session :: session in lanes ==> Inv(lanes[session])
    }

    constructor ()
      ensures Valid() && lanes == map[]
    {
      lanes := map[];
    }

    method State(session: SessionId) returns (lane: Lane)
      modifies this
      ensures lanes == old(lanes)[session := lane] && lane == LaneOf(old(lanes), session)
      ensures old(Valid()) ==> Valid()
    {
      if session !in lanes {
        lanes := lanes[session := NEW_LANE];
      }
      lane := lanes[session];
    }

    method Marker(session: SessionId) returns (marker: LaneMarker)
      modifies this
      ensures marker == LaneMarker(session, LaneOf(old(lanes), session).generation)
      ensures forall other :: LaneOf(lanes, other) == LaneOf(old(lanes), other)
    {
      var lane := State(session);
      marker := LaneMarker(session, lane.generation);
    }

    method IsCurrent(marker: LaneMarker) returns (current: bool)
      modifies this
      ensures current == (LaneOf(old(lanes), marker.session).generation == marker.generation)
      ensures forall other :: LaneOf(lanes, other) == LaneOf(old(lanes), other)
    {
      var lane := State(marker.session);
      current := lane.generation == marker.generation;
    }

    method Transition(session: SessionId, step: Step)
      requires Valid() && Apply(LaneOf(lanes, session), step).Some?
      modifies this
      ensures Valid()
      ensures lanes == old(lanes)[session := Apply(LaneOf(old(lanes), session), step).value]
    {
      var lane := State(session);
      StepKeepsInv(lane, step);
      lanes := lanes[session := Apply(lane, step).value];
    }

    method ResetSession(session: SessionId) returns (marker: LaneMarker)
      requires Valid()
      modifies this
      ensures Valid()
      ensures lanes == old(lanes)[session := ResetLane(LaneOf(old(lanes), session))]
      ensures marker == LaneMarker(session, lanes[session].generation)
    {
      Transition(session, Reset);
      marker := LaneMarker(session, lanes[session].generation);
    }

    /** The last section of `enter`: with the gate held, check the generation and count the permit. */
    method Admit(session: SessionId, a: ActorId) returns (admitted: bool)
      requires Valid() && session in lanes && a in lanes[session].actors && lanes[session].actors[a].Holding?
      modifies this
      ensures Valid() && session in lanes && a in lanes[session].actors
      ensures admitted <==> old(lanes[session].actors[a].generation == lanes[session].generation)
      ensures admitted ==> a in Permits(lanes[session]) && lanes[session].active == 1
      ensures !admitted ==> lanes[session].gate.None? && lanes[session].actors[a] == Left(StaleGenerationError)
      ensures lanes[session].generation == old(lanes[session].generation)
      ensures forall other :: other != session ==> LaneOf(lanes, other) == LaneOf(old(lanes), other)
    {
      Transition(session, CheckGeneration(a));
      if lanes[session].actors[a].Stale? {
        Transition(session, ReleaseGate(a));
        return false;
      }
      Transition(session, CountPermit(a));
      return true;
    }

    /** The drop of a permit: its count first, its guard last. */
    method DropPermit(session: SessionId, a: ActorId)
      requires Valid() && session in lanes && a in Permits(lanes[session])
      modifies this
      ensures Valid() && session in lanes
      ensures lanes[session].active == 0 && lanes[session].gate.None? && Permits(lanes[session]) == {}
      ensures lanes[session].generation == old(lanes[session].generation)
      ensures forall other :: other != session ==> LaneOf(lanes, other) == LaneOf(old(lanes), other)
    {
      Transition(session, UncountPermit(a));
      Transition(session, ReleaseGate(a));
    }
  }
}
