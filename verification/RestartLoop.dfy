/** The loop that runs a turn, compacts the context when the turn did not fit, and starts over. */
module RestartLoop {
  import opened Text
  import L = SessionLane

  datatype Purpose = Standard | Review
  datatype Turn = Done | CompactionRequired | ContextOverflow | Broken
  datatype Reason = Automatic | Reactive
  datatype Outcome = Success | PromptTooLong | ExecutionFailed | StaleLaneGeneration

  /** What the model and the compactor answer: the outcome of each turn, and what the compaction after
      it covers, if it yields a checkpoint at all. `initial` is the checkpoint the run starts with. */
  datatype Scenario = Scenario(
    purpose: Purpose,
    initial: Option<nat>,
    turn: nat -> Turn,
    compacted: nat -> Option<nat>)

  function Overflows(s: Scenario, n: nat): nat
  {
    if n == 0 then 0 else Overflows(s, n - 1) + (if s.turn(n - 1) == ContextOverflow then 1 else 0)
  }

  /** How far the checkpoint that turn `n` sees reaches. */
  function Covered(s: Scenario, n: nat): nat
  {
    if n > 0 then (if s.compacted(n - 1).Some? then s.compacted(n - 1).value else 0)
    else if s.initial.Some? then s.initial.value else 0
  }

  /** Turn `n` did not fit and may be compacted for: not in a review, not a fourth time, and for a
      provider overflow only once. */
  predicate MayCompact(s: Scenario, n: nat)
  {
    && (s.turn(n) == CompactionRequired || (s.turn(n) == ContextOverflow && Overflows(s, n) == 0))
    && n < 3 && s.purpose != Review
  }

  /** The run gets as far as turn `n`. */
  predicate Reached(s: Scenario, n: nat)
  {
    n == 0 || (Reached(s, n - 1) && MayCompact(s, n - 1)
               && s.compacted(n - 1).Some? && s.compacted(n - 1).value > Covered(s, n - 1))
  }

  /** However the model behaves: at most four turns, at most one of the turns restarted for was a
      provider overflow, every restart covers strictly more history, and a review never restarts. */
  lemma {:induction false} RestartsAreBounded(s: Scenario, n: nat)
    requires Reached(s, n)
    ensures n <= 3 && Overflows(s, n) <= 1 && (s.purpose == Review ==> n == 0)
    ensures forall i: nat :: i <= n ==> Reached(s, i)
    ensures forall i: nat, j: nat :: i < j <= n ==> Covered(s, i) < Covered(s, j)
  {
    if n > 0 {
      RestartsAreBounded(s, n - 1);
    }
  }

  lemma {:induction false} NothingAfterTheLast(s: Scenario, last: nat, n: nat)
    ensures last < n && Reached(s, n) ==> Reached(s, last + 1)
  {
    if n > last + 1 {
      NothingAfterTheLast(s, last, n - 1);
    }
  }

  /** A run succeeds exactly when some turn within the bounds does, everything before it being a turn
      that did not fit and was compacted for with progress. */
  predicate Succeeds(s: Scenario)
  {
    exists n: nat | n <= 3 :: Reached(s, n) && s.turn(n) == Done
  }

  lemma LastTurnDecides(s: Scenario, last: nat)
    requires Reached(s, last) && !Reached(s, last + 1)
    ensures last <= 3 && forall n: nat :: Reached(s, n) <==> n <= last
    ensures Succeeds(s) <==> s.turn(last) == Done
  {
    RestartsAreBounded(s, last);
    forall n: nat ensures Reached(s, n) <==> n <= last {
      if n > last {
        NothingAfterTheLast(s, last, n);
      }
    }
    forall n: nat | n < last ensures s.turn(n) != Done {
      assert Reached(s, n + 1);
    }
  }

  lemma {:induction false} NoOverflowIff(s: Scenario, n: nat)
    ensures Overflows(s, n) == 0 <==> forall i: nat :: i < n ==> s.turn(i) != ContextOverflow
  {
    if n > 0 {
      NoOverflowIff(s, n - 1);
      assert Overflows(s, n) == 0 <==> Overflows(s, n - 1) == 0 && s.turn(n - 1) != ContextOverflow;
    }
  }

  /** Nothing stands in the way of another turn: the fourth has not run, the run is no review, the turn asked for
      compaction or is the first that overflowed the provider, and compaction covers more than before. */
  predicate CanRestart(s: Scenario, n: nat)
  {
    && n < 3 && s.purpose != Review
    && (|| s.turn(n) == CompactionRequired
        || (s.turn(n) == ContextOverflow && forall i: nat :: i < n ==> s.turn(i) != ContextOverflow))
    && s.compacted(n).Some?
    && var before := if n == 0 then s.initial else s.compacted(n - 1);
       s.compacted(n).value > (if before.Some? then before.value else 0)
  }

  /** After a turn the run goes on if and only if nothing stands in the way of it. */
  lemma RestartsIff(s: Scenario, n: nat)
    requires Reached(s, n)
    ensures Reached(s, n + 1) <==> CanRestart(s, n)
  {
    NoOverflowIff(s, n);
    RestartsAreBounded(s, n);
  }

  method RunWithRestarts(s: Scenario) returns (outcome: Outcome, last: nat, reasons: seq<Reason>)
    // the turns run are exactly those reached
    ensures last <= 3 && forall n: nat :: Reached(s, n) <==> n <= last
    // the outcome is decided by the last of them, and is never a lane error here
    ensures outcome == (match s.turn(last) case Done => Success case Broken => ExecutionFailed case _ => PromptTooLong)
    ensures outcome == Success <==> Succeeds(s)
    // the run gives up exactly when its last turn did not fit and it cannot restart
    ensures outcome == PromptTooLong <==> s.turn(last) in {CompactionRequired, ContextOverflow} && !CanRestart(s, last)
    // one compaction per restart, and at most one more that did not help
    ensures last <= |reasons| <= last + 1 && |reasons| <= 3
    ensures |reasons| == last + 1 <==> MayCompact(s, last)
    ensures forall i: nat :: i < |reasons| ==>
              reasons[i] == if s.turn(i) == ContextOverflow then Reactive else Automatic
    ensures forall i, j :: 0 <= i < j < |reasons| ==> reasons[i] == Automatic || reasons[j] == Automatic
    ensures s.purpose == Review ==> last == 0 && reasons == []
  {
    var compactionRestarts, providerOverflowRestarts := 0, 0;
    var checkpoint := s.initial;
    last, reasons := 0, [];
    while true
      invariant last == compactionRestarts == |reasons| <= 3
      invariant Reached(s, last) && providerOverflowRestarts == Overflows(s, last) <= 1
      invariant (if checkpoint.Some? then checkpoint.value else 0) == Covered(s, last)
      invariant forall i: nat :: i < |reasons| ==>
                  reasons[i] == (if s.turn(i) == ContextOverflow then Reactive else Automatic)
      invariant forall i: nat :: i < |reasons| && reasons[i] == Reactive ==> Overflows(s, i) == 0 < Overflows(s, last)
      invariant forall i, j :: 0 <= i < j < |reasons| ==> reasons[i] == Automatic || reasons[j] == Automatic
      decreases 3 - compactionRestarts
    {
      RestartsAreBounded(s, last);
      var turn := s.turn(last);
      var reason := Automatic;
      if turn == Done {
        outcome := Success;
        break;
      } else if turn == Broken {
        outcome := ExecutionFailed;
        break;
      } else if turn == ContextOverflow {
        if providerOverflowRestarts >= 1 {
          outcome := PromptTooLong;
          break;
        }
        providerOverflowRestarts := providerOverflowRestarts + 1;
        reason := Reactive;
      }
      if compactionRestarts >= 3 || s.purpose == Review {
        outcome := PromptTooLong;
        break;
      }
      var coveredBefore := if checkpoint.Some? then checkpoint.value else 0;
      reasons := reasons + [reason];
      var next := s.compacted(last);
      if next.None? || next.value <= coveredBefore {
        outcome := PromptTooLong;
        break;
      }
      compactionRestarts := compactionRestarts + 1;
      checkpoint := next;
      last := last + 1;
    }
    LastTurnDecides(s, last);
    RestartsIff(s, last);
  }

  // ---- Around the loop ----

  datatype FirstCompaction = Fresh(covered: nat) | NotNeeded | Failed | CompactionCancelled

  /** The checkpoint a run starts with: none for a review; otherwise the new one, or the latest one
      when compaction was not needed or failed. None: the run was cancelled while compacting. */
  function StartingCheckpoint(purpose: Purpose, first: FirstCompaction, latest: Option<nat>): Option<Option<nat>>
  {
    if purpose == Review then Some(None)
    else match first
      case Fresh(covered) => Some(Some(covered))
      case NotNeeded => Some(latest)
      case Failed => Some(latest)
      case CompactionCancelled => None
  }

  /** A review runs its one turn without a checkpoint. Any other run starts from the new checkpoint, or from the
      latest one when there was no new; and nothing the history had covered by then is lost by restarting: every
      turn after a restart sees a checkpoint that reaches further. */
  lemma RestartsReachBeyondTheStart(s: Scenario, first: FirstCompaction, latest: Option<nat>, n: nat)
    requires StartingCheckpoint(s.purpose, first, latest) == Some(s.initial)
    requires Reached(s, n)
    ensures if s.purpose == Review then s.initial.None? && n == 0 else
      match first
      case Fresh(covered) => s.initial == Some(covered) && (n > 0 ==> Covered(s, n) > covered)
      case CompactionCancelled => false
      case _ => s.initial == latest && (n > 0 && latest.Some? ==> Covered(s, n) > latest.value)
  {
    RestartsAreBounded(s, n);
    assert n > 0 ==> Covered(s, 0) < Covered(s, n);
  }

  /** What the run is told about itself at the end of `execute`. */
  datatype RunResult = Ended(outcome: Outcome) | RunCancelled

  /** The lane-protected part of `execute`, for a run that was let in as `a` and holds its permit still, in any
      interleaving with other runs and resets of its session. It reports success if and only if its turns
      succeeded and no reset fell between its reading of the epoch and the final check, or the generation it
      read was saturated; the stale error stands for the successes withdrawn. */
  method ExecuteRun(purpose: Purpose, first: FirstCompaction, latest: Option<nat>,
                    turn: nat -> Turn, compacted: nat -> Option<nat>, lane: L.Lane, a: L.ActorId,
                    ghost before: seq<L.Step>, ghost since: seq<L.Step>)
    returns (result: RunResult)
    requires L.Exec(L.NEW_LANE, before + [L.ReadEpoch(a)] + since) == Some(lane) && a in L.Permits(lane)
    ensures result == RunCancelled <==> purpose != Review && first == CompactionCancelled
    ensures result.Ended? ==>
      var s := Scenario(purpose, StartingCheckpoint(purpose, first, latest).value, turn, compacted);
      var undisturbed := L.Resets(since) == 0 || lane.actors[a].generation == L.MAX_GENERATION;
      && (result.outcome == Success <==> Succeeds(s) && undisturbed)
      && (result.outcome == StaleLaneGeneration <==> Succeeds(s) && !undisturbed)
  {
    L.MarkerIsCurrentIff(before, a, since);
    var start := StartingCheckpoint(purpose, first, latest);
    if start.None? {
      return RunCancelled;
    }
    var outcome, last, reasons := RunWithRestarts(Scenario(purpose, start.value, turn, compacted));
    if lane.actors[a].generation != lane.generation && outcome == Success {
      outcome := StaleLaneGeneration;
    }
    return Ended(outcome);
  }
}
