/** The registry of active runs and the cascade of cancellation over the run forest. */
module RunRegistry {
  import opened Text
  import opened SessionLane

  type RunId = string
  type Token = nat

  datatype ActiveRun = ActiveRun(
    session: SessionId,
    generation: nat,
    parent: Option<RunId>,
    cancellation: Token)

  datatype RegistryError = AlreadyRegistered | NotRegistered | StaleGeneration
  datatype Outcome<+T> = Ok(value: T) | Err(error: RegistryError)

  type Active = map<RunId, ActiveRun>

  // ---- The run forest ----

  function Children(active: Active, p: RunId): set<RunId>
  {
    set r | r in active && active[r].parent == Some(p)
  }

  /** A run is started one level below the run that spawned it, so depth grows along parent links. */
  ghost predicate Forest(active: Active, depth: RunId -> nat, bound: nat)
  {
    forall r :: r in active ==>
      depth(r) < bound && (active[r].parent.Some? ==> depth(active[r].parent.value) < depth(r))
  }

  ghost function Height(depth: RunId -> nat, bound: nat, p: RunId): nat
  {
    if depth(p) < bound then bound - depth(p) else 0
  }

  /** The transitive descendants of `p` through active parent links. */
  ghost function Descendants(active: Active, depth: RunId -> nat, bound: nat, p: RunId): set<RunId>
    requires Forest(active, depth, bound)
    decreases Height(depth, bound, p), 1
  {
    SubtreesOf(active, depth, bound, p, Children(active, p))
  }

  /** The given children of `p` with all their descendants. */
  ghost function SubtreesOf(active: Active, depth: RunId -> nat, bound: nat, p: RunId, cs: set<RunId>): set<RunId>
    requires Forest(active, depth, bound) && cs <= Children(active, p)
    decreases Height(depth, bound, p), 0
  {
    set c, r | c in cs && r in active && (r == c || r in Descendants(active, depth, bound, c)) :: r
  }

  lemma NoSubtrees(active: Active, depth: RunId -> nat, bound: nat, p: RunId)
    requires Forest(active, depth, bound)
    ensures SubtreesOf(active, depth, bound, p, {}) == {}
  {
  }

  lemma MemberOf(active: Active, depth: RunId -> nat, bound: nat, p: RunId, r: RunId)
    requires Forest(active, depth, bound)
    ensures r in Descendants(active, depth, bound, p) <==>
      r in active && exists c :: c in Children(active, p) && (r == c || r in Descendants(active, depth, bound, c))
  {
  }

  predicate Closed(active: Active, s: set<RunId>)
  {
    forall r, c :: r in s && c in Children(active, r) ==> c in s
  }

  lemma {:induction false} DescendantsAreClosed(
      active: Active, depth: RunId -> nat, bound: nat, p: RunId, r: RunId, k: RunId)
    requires Forest(active, depth, bound)
    requires r == p || r in Descendants(active, depth, bound, p)
    requires k in Children(active, r)
    ensures k in Descendants(active, depth, bound, p)
    decreases Height(depth, bound, p)
  {
    hide Descendants;
    MemberOf(active, depth, bound, p, r);
    MemberOf(active, depth, bound, p, k);
    if r != p {
      var c :| c in Children(active, p) && (r == c || r in Descendants(active, depth, bound, c));
      DescendantsAreClosed(active, depth, bound, c, r, k);
    }
  }

  lemma {:induction false} DescendantsAreLeast(active: Active, depth: RunId -> nat, bound: nat, p: RunId, s: set<RunId>)
    requires Forest(active, depth, bound)
    requires Children(active, p) <= s && Closed(active, s)
    ensures Descendants(active, depth, bound, p) <= s
    decreases Height(depth, bound, p)
  {
    hide Descendants;
    forall r | r in Descendants(active, depth, bound, p) ensures r in s {
      MemberOf(active, depth, bound, p, r);
      var c :| c in Children(active, p) && (r == c || r in Descendants(active, depth, bound, c));
      assert Children(active, c) <= s;
      DescendantsAreLeast(active, depth, bound, c, s);
    }
  }

  /** `Descendants` is the least set that contains the children of `p` and, with a run, its children. */
  lemma DescendantsAreTransitive(active: Active, depth: RunId -> nat, bound: nat, p: RunId)
    requires Forest(active, depth, bound)
    ensures var d := Descendants(active, depth, bound, p);
      && HoldsChildren(active, {p}, d) && HoldsChildren(active, d, d)
      && (forall s :: HoldsChildren(active, {p}, s) && HoldsChildren(active, s, s) ==> d <= s)
  {
    var d := Descendants(active, depth, bound, p);
    assert forall r, c :: c in Children(active, r) <==> c in active && active[c].parent == Some(r);
    hide Descendants, Forest, Children;
    forall k | k in Children(active, p) ensures k in d {
      DescendantsAreClosed(active, depth, bound, p, p, k);
    }
    forall r, k | r in d && k in Children(active, r) ensures k in d {
      DescendantsAreClosed(active, depth, bound, p, r, k);
    }
    forall s | HoldsChildren(active, {p}, s) && HoldsChildren(active, s, s) ensures d <= s {
      DescendantsAreLeast(active, depth, bound, p, s);
    }
  }

  /** Every active run whose parent is in `parents` is in `s`. */
  predicate HoldsChildren(active: Active, parents: set<RunId>, s: set<RunId>)
  {
    forall c :: c in active && active[c].parent.Some? && active[c].parent.value in parents ==> c in s
  }

  lemma {:induction false} DescendantsAreDeeper(active: Active, depth: RunId -> nat, bound: nat, p: RunId)
    requires Forest(active, depth, bound)
    ensures forall r :: r in Descendants(active, depth, bound, p) ==> r in active && depth(p) < depth(r)
    decreases Height(depth, bound, p)
  {
    forall c | c in Children(active, p)
      ensures forall r :: r in Descendants(active, depth, bound, c) ==> r in active && depth(p) < depth(r)
    {
      DescendantsAreDeeper(active, depth, bound, c);
    }
  }

  /** The parent of a descendant is the ancestor itself or another of its descendants. */
  lemma {:induction false} DescendantsHangTogether(active: Active, depth: RunId -> nat, bound: nat, p: RunId)
    requires Forest(active, depth, bound)
    ensures forall r :: r in Descendants(active, depth, bound, p) ==>
      && r in active && active[r].parent.Some?
      && (active[r].parent.value == p || active[r].parent.value in Descendants(active, depth, bound, p))
    decreases Height(depth, bound, p)
  {
    var d := Descendants(active, depth, bound, p);
    DescendantsAreTransitive(active, depth, bound, p);
    forall c | c in Children(active, p)
      ensures forall r :: r in Descendants(active, depth, bound, c) ==>
        r in active && active[r].parent.Some? && active[r].parent.value in d
    {
      DescendantsHangTogether(active, depth, bound, c);
      DescendantsAreTransitive(active, depth, bound, c);
    }
  }

  /** Two children of one run share no descendant, and neither descends from the other. */
  lemma {:induction false} SubtreesAreDisjoint(
      active: Active, depth: RunId -> nat, bound: nat, p: RunId, c: RunId, k: RunId, r: RunId)
    requires Forest(active, depth, bound)
    requires c in Children(active, p) && k in Children(active, p) && c != k
    requires r == c || r in Descendants(active, depth, bound, c)
    requires r == k || r in Descendants(active, depth, bound, k)
    ensures false
    decreases depth(r)
  {
    DescendantsHangTogether(active, depth, bound, c);
    DescendantsHangTogether(active, depth, bound, k);
    DescendantsAreDeeper(active, depth, bound, c);
    DescendantsAreDeeper(active, depth, bound, k);
    if r != c && r != k {
      SubtreesAreDisjoint(active, depth, bound, p, c, k, active[r].parent.value);
    }
  }

  // ---- Registrations make a forest ----

  datatype RegistryStep =
    | Registered(run: RunId, entry: ActiveRun)
    | Removed(run: RunId)

  function AfterStep(active: Active, step: RegistryStep): Active
  {
    match step
    case Registered(run, entry) => if run in active then active else active[run := entry]
    case Removed(run) => active - {run}
  }

  function AfterSteps(active: Active, steps: seq<RegistryStep>): Active
  {
    if steps == [] then active
    else AfterStep(AfterSteps(active, steps[..|steps| - 1]), steps[|steps| - 1])
  }

  const MAX_AGENT_DEPTH: nat := 3

  /** A request is accepted at a depth of at most three, and a child is started one level below its parent. */
  predicate Accepted(step: RegistryStep, depth: RunId -> nat)
  {
    step.Registered? ==>
      && depth(step.run) <= MAX_AGENT_DEPTH
      && (step.entry.parent.Some? ==> depth(step.run) == depth(step.entry.parent.value) + 1)
  }

  /** Whatever is registered and removed, in any order and also when a parent is gone before its child, the
      active runs form a forest of at most four levels. */
  lemma {:induction false} RegistrationsKeepForest(steps: seq<RegistryStep>, depth: RunId -> nat)
    requires forall step :: step in steps ==> Accepted(step, depth)
    ensures Forest(AfterSteps(map[], steps), depth, MAX_AGENT_DEPTH + 1)
    decreases |steps|
  {
    if steps != [] {
      var last := steps[|steps| - 1];
      assert last in steps && Accepted(last, depth);
      RegistrationsKeepForest(steps[..|steps| - 1], depth);
    }
  }

  // ---- What cancelling a set of runs does ----

  function TokensOf(active: Active, runs: set<RunId>): set<Token>
  {
    set r | r in runs && r in active :: active[r].cancellation
  }

  function InSession(active: Active, runs: set<RunId>, session: SessionId): set<RunId>
  {
    set r | r in runs && r in active && active[r].session == session
  }

  function ResetTimes(lane: Lane, n: nat): Lane
  {
    if n == 0 then lane else ResetLane(ResetTimes(lane, n - 1))
  }

  lemma {:induction false} ResetTimesAdd(lane: Lane, m: nat, n: nat)
    ensures ResetTimes(ResetTimes(lane, m), n) == ResetTimes(lane, m + n)
  {
    if n > 0 {
      ResetTimesAdd(lane, m, n - 1);
    }
  }

  /** `lanes` after one reset of its session for every run in `runs`. */
  ghost predicate ResetFor(before: map<SessionId, Lane>, after: map<SessionId, Lane>, active: Active, runs: set<RunId>)
  {
    forall s :: LaneOf(after, s) == ResetTimes(LaneOf(before, s), |InSession(active, runs, s)|)
  }

  lemma ResetForUnion(
      a: map<SessionId, Lane>, b: map<SessionId, Lane>, c: map<SessionId, Lane>,
      active: Active, first: set<RunId>, second: set<RunId>)
    requires ResetFor(a, b, active, first) && ResetFor(b, c, active, second) && first !! second
    ensures ResetFor(a, c, active, first + second)
  {
    hide ResetTimes, LaneOf;
    forall s ensures LaneOf(c, s) == ResetTimes(LaneOf(a, s), |InSession(active, first + second, s)|) {
      var x, y := InSession(active, first, s), InSession(active, second, s);
      assert InSession(active, first + second, s) == x + y && x !! y;
      ResetTimesAdd(LaneOf(a, s), |x|, |y|);
    }
  }

  lemma TokensOfUnion(active: Active, first: set<RunId>, second: set<RunId>)
    ensures TokensOf(active, first + second) == TokensOf(active, first) + TokensOf(active, second)
  {
  }

  lemma TokensOfOne(active: Active, run: RunId)
    ensures run in active ==> TokensOf(active, {run}) == {active[run].cancellation}
  {
  }

  lemma TokensOfOneMore(active: Active, all: set<RunId>, rest: set<RunId>, run: RunId)
    requires rest <= all && run in rest && run in active
    ensures TokensOf(active, all - (rest - {run})) == TokensOf(active, all - rest) + {active[run].cancellation}
  {
    hide TokensOf;
    TokensOfUnion(active, all - rest, {run});
    TokensOfOne(active, run);
    assert all - (rest - {run}) == (all - rest) + {run};
  }

  lemma NothingToReset(lanes: map<SessionId, Lane>, active: Active)
    ensures ResetFor(lanes, lanes, active, {}) && TokensOf(active, {}) == {}
  {
    assert forall s :: InSession(active, {}, s) == {};
  }

  /** Adding one more child to those already cancelled adds its subtree, which is new. */
  lemma OneMoreSubtree(
      active: Active, depth: RunId -> nat, bound: nat, p: RunId, done: set<RunId>, child: RunId)
    requires Forest(active, depth, bound)
    requires done <= Children(active, p) && child in Children(active, p) - done
    ensures var before := SubtreesOf(active, depth, bound, p, done);
      var subtree := {child} + Descendants(active, depth, bound, child);
      before !! subtree && SubtreesOf(active, depth, bound, p, done + {child}) == before + subtree
  {
    var before := SubtreesOf(active, depth, bound, p, done);
    var subtree := {child} + Descendants(active, depth, bound, child);
    DescendantsAreDeeper(active, depth, bound, child);
    forall r ensures !(r in before && r in subtree) {
      if r in before && r in subtree {
        var c :| c in done && (r == c || r in Descendants(active, depth, bound, c));
        SubtreesAreDisjoint(active, depth, bound, p, c, child, r);
      }
    }
  }

  lemma ResetForOne(
      before: map<SessionId, Lane>, after: map<SessionId, Lane>, active: Active, r: RunId)
    requires r in active
    requires after == before[active[r].session := ResetLane(LaneOf(before, active[r].session))]
    ensures ResetFor(before, after, active, {r})
  {
    forall s ensures LaneOf(after, s) == ResetTimes(LaneOf(before, s), |InSession(active, {r}, s)|) {
      if s == active[r].session {
        assert InSession(active, {r}, s) == {r};
        assert ResetTimes(LaneOf(before, s), 1) == ResetLane(ResetTimes(LaneOf(before, s), 0));
      } else {
        assert InSession(active, {r}, s) == {};
      }
    }
  }

  // ---- The registry ----

  class AgentExecutorRegistry {
    var active: Active
    var cancelled: set<Token>
    var nextToken: Token
    const lanes: SessionLanes

    ghost predicate Valid()
      reads this, lanes
    {
      && lanes.Valid()
      && (forall r :: r in active ==> active[r].cancellation < nextToken)
      && (forall t :: t in cancelled ==> t < nextToken)
      && (forall r, q :: r in active && q in active && active[r].cancellation == active[q].cancellation ==> r == q)
    }

    constructor ()
      ensures Valid() && fresh(lanes) && active == map[] && cancelled == {} && lanes.lanes == map[]
    {
      active, cancelled, nextToken := map[], {}, 0;
      lanes := new SessionLanes();
    }

    method Register(run: RunId, session: SessionId, generation: nat, parent: Option<RunId>)
      returns (result: Outcome<Token>)
      requires Valid()
      modifies this
      ensures Valid() && cancelled == old(cancelled)
      ensures result.Err? <==> run in old(active)
      ensures result.Err? ==> result.error == AlreadyRegistered && active == old(active)
      ensures result.Ok? ==>
        && result.value !in cancelled && result.value !in TokensOf(old(active), old(active).Keys)
        && active == old(active)[run := ActiveRun(session, generation, parent, result.value)]
    {
      if run in active {
        return Err(AlreadyRegistered);
      }
      var token := nextToken;
      nextToken := nextToken + 1;
      active := active[run := ActiveRun(session, generation, parent, token)];
      result := Ok(token);
    }

    /** Cancels one run and everything below it. */
    method CancelSubtree(run: RunId, ghost depth: RunId -> nat, ghost bound: nat)
      requires Valid() && Forest(active, depth, bound) && run in active
      modifies this`cancelled, lanes
      ensures Valid()
      ensures var subtree := {run} + Descendants(active, depth, bound, run);
        && cancelled == old(cancelled) + TokensOf(active, subtree)
        && ResetFor(old(lanes.lanes), lanes.lanes, active, subtree)
      decreases Height(depth, bound, run), 1
    {
      hide ResetFor, Inv, LaneOf, ResetLane, Descendants, Forest, InSession;
      cancelled := cancelled + {active[run].cancellation};
      var marker := lanes.ResetSession(active[run].session);
      ResetForOne(old(lanes.lanes), lanes.lanes, active, run);
      ghost var between := lanes.lanes;
      CancelDescendants(run, depth, bound);
      DescendantsAreDeeper(active, depth, bound, run);
      ghost var deeper := Descendants(active, depth, bound, run);
      ResetForUnion(old(lanes.lanes), between, lanes.lanes, active, {run}, deeper);
      TokensOfUnion(active, {run}, deeper);
      assert TokensOf(active, {run}) == {active[run].cancellation};
    }

    /** Cancels every transitive descendant of `parent`, each once, and resets the lane of each one's
        session once for it. */
    method CancelDescendants(parent: RunId, ghost depth: RunId -> nat, ghost bound: nat)
      requires Valid() && Forest(active, depth, bound)
      modifies this`cancelled, lanes
      ensures Valid()
      ensures cancelled == old(cancelled) + TokensOf(active, Descendants(active, depth, bound, parent))
      ensures ResetFor(old(lanes.lanes), lanes.lanes, active, Descendants(active, depth, bound, parent))
      decreases Height(depth, bound, parent), 0
    {
      hide ResetFor, SubtreesOf, Inv, LaneOf, ResetLane;
      var rest := Children(active, parent);
      ghost var done: set<RunId> := {};
      NoSubtrees(active, depth, bound, parent);
      NothingToReset(lanes.lanes, active);
      while rest != {}
        invariant Valid() && rest !! done && rest + done == Children(active, parent)
        invariant cancelled == old(cancelled) + TokensOf(active, SubtreesOf(active, depth, bound, parent, done))
        invariant ResetFor(old(lanes.lanes), lanes.lanes, active, SubtreesOf(active, depth, bound, parent, done))
        decreases rest
      {
        var child :| child in rest;
        rest := rest - {child};
        ghost var before, past := lanes.lanes, SubtreesOf(active, depth, bound, parent, done);
        CancelSubtree(child, depth, bound);
        OneMoreSubtree(active, depth, bound, parent, done, child);
        ghost var subtree := {child} + Descendants(active, depth, bound, child);
        ResetForUnion(old(lanes.lanes), before, lanes.lanes, active, past, subtree);
        TokensOfUnion(active, past, subtree);
        done := done + {child};
      }
      assert done == Children(active, parent);
    }

    /** Cancelling with the right generation cancels exactly the run and its descendants; any other
        call changes nothing. */
    method Cancel(run: RunId, expected: nat, ghost depth: RunId -> nat, ghost bound: nat)
      returns (result: Outcome<()>)
      requires Valid() && Forest(active, depth, bound)
      modifies this`cancelled, lanes
      ensures Valid()
      ensures result == if run !in active then Err(NotRegistered)
                        else if active[run].generation != expected then Err(StaleGeneration) else Ok(())
      ensures result.Err? ==> cancelled == old(cancelled) && lanes.lanes == old(lanes.lanes)
      ensures result.Ok? ==>
        var family := {run} + Descendants(active, depth, bound, run);
        && cancelled == old(cancelled) + TokensOf(active, family)
        && ResetFor(old(lanes.lanes), lanes.lanes, active, family)
    {
      if run !in active {
        return Err(NotRegistered);
      }
      if active[run].generation != expected {
        return Err(StaleGeneration);
      }
      CancelSubtree(run, depth, bound);
      result := Ok(());
    }

    method Remove(run: RunId, expected: nat) returns (removed: bool)
      requires Valid()
      modifies this`active
      ensures Valid()
      ensures removed <==> run in old(active) && old(active)[run].generation == expected
      ensures active == if removed then old(active) - {run} else old(active)
    {
      removed := run in active && active[run].generation == expected;
      if removed {
        active := active - {run};
      }
    }

    /** Resets one session: its lane once, and every active run of it is cancelled. */
    method ResetSession(session: SessionId)
      requires Valid()
      modifies this`cancelled, lanes
      ensures Valid()
      ensures lanes.lanes == old(lanes.lanes)[session := ResetLane(LaneOf(old(lanes.lanes), session))]
      ensures cancelled == old(cancelled) + TokensOf(active, InSession(active, active.Keys, session))
    {
      hide Inv, LaneOf, ResetLane, TokensOf;
      var marker := lanes.ResetSession(session);
      var rest := InSession(active, active.Keys, session);
      assert rest <= active.Keys;
      hide InSession;
      ghost var all := rest;
      NothingToReset(lanes.lanes, active);
      assert all - rest == {};
      while rest != {}
        invariant Valid() && rest <= all
        invariant lanes.lanes == old(lanes.lanes)[session := ResetLane(LaneOf(old(lanes.lanes), session))]
        invariant cancelled == old(cancelled) + TokensOf(active, all - rest)
        decreases rest
      {
        var run :| run in rest;
        TokensOfOneMore(active, all, rest, run);
        cancelled := cancelled + {active[run].cancellation};
        rest := rest - {run};
      }
      assert all - {} == all;
    }
  }

  /** The tokens cancelled when a session is reset are those of its runs and of no other. */
  lemma OnlyTheSessionIsCancelled(registry: AgentExecutorRegistry, session: SessionId)
    requires registry.Valid()
    ensures var active := registry.active;
      forall r :: r in active ==>
        (active[r].cancellation in TokensOf(active, InSession(active, active.Keys, session))
         <==> active[r].session == session)
  {
  }

  /** The lane of a session is reset once for every cancelled run of that session, and not at all without one. */
  lemma LanesAreResetOncePerRun(
      before: map<SessionId, Lane>, after: map<SessionId, Lane>, active: Active, runs: set<RunId>, s: SessionId)
    requires ResetFor(before, after, active, runs) && runs <= active.Keys
    ensures LaneOf(after, s).token == LaneOf(before, s).token + |set r | r in runs && active[r].session == s|
    ensures (forall r :: r in runs ==> active[r].session != s) ==> LaneOf(after, s) == LaneOf(before, s)
  {
    var theirs := InSession(active, runs, s);
    assert theirs == set r | r in runs && active[r].session == s;
    ResetsMoveToken(LaneOf(before, s), |theirs|);
    if forall r :: r in runs ==> active[r].session != s {
      assert theirs == {};
    }
  }

  lemma {:induction false} ResetsMoveToken(lane: Lane, n: nat)
    ensures ResetTimes(lane, n).token == lane.token + n
    ensures n == 0 ==> ResetTimes(lane, n) == lane
  {
    if n > 0 {
      ResetsMoveToken(lane, n - 1);
    }
  }

  /** A token is cancelled by a cancellation if and only if its run belongs to the family: runs outside
      it keep running. */
  lemma OnlyTheFamilyIsCancelled(registry: AgentExecutorRegistry, family: set<RunId>, r: RunId)
    requires registry.Valid() && r in registry.active && family <= registry.active.Keys
    ensures registry.active[r].cancellation in TokensOf(registry.active, family) <==> r in family
  {
  }

  /** Every lane of a cancelled run is fenced: its generation has moved past the one the run entered
      with, unless it was saturated; a session without a cancelled run is untouched. */
  lemma {:induction false} CancelledSessionsAreFenced(lane: Lane, n: nat)
    requires Inv(lane)
    ensures var r := ResetTimes(lane, n);
      && Inv(r) && r.token == lane.token + n && r.actors == lane.actors && r.gate == lane.gate
      && r.active == lane.active
      && (n == 0 || lane.generation == MAX_GENERATION <==> r.generation == lane.generation)
      && (n > 0 ==> lane.token in r.cancelled)
  {
    if n > 0 {
      CancelledSessionsAreFenced(lane, n - 1);
      StepKeepsInv(ResetTimes(lane, n - 1), Reset);
    }
  }
}
