/** Cancelling a run while other runs come and go: the cascade takes the registry's lock once for each level, and
    between two of its sections runs may be registered and removed. */
module CancelCascade {
  import opened Text
  import opened RunRegistry

  /** What the cascade has still to do: list the children of a run, or cancel one that was listed. */
  datatype Task = Visit(run: RunId) | CancelListed(run: RunId, entry: ActiveRun)

  /** `hit` is the history of the runs cancelled, each with the entry, hence the token and the session, that was
      cancelled. */
  datatype State = State(active: Active, hit: set<(RunId, ActiveRun)>, todo: seq<Task>)

  /** A step of others, or the next task of the cascade. Children are listed in no particular order. */
  datatype Step = Others(step: RegistryStep) | List(children: seq<Task>) | CancelNext

  /** What `cancel` has done when it calls the cascade. */
  function Begun(active: Active, root: RunId): State
    requires root in active
  {
    State(active, {(root, active[root])}, [Visit(root)])
  }

  predicate Lists(active: Active, p: RunId, children: seq<Task>)
  {
    && (forall t :: t in children ==>
          t.CancelListed? && t.run in Children(active, p) && t.entry == active[t.run])
    && (forall c :: c in Children(active, p) ==> CancelListed(c, active[c]) in children)
  }

  function Apply(s: State, step: Step): Option<State>
  {
    match step
    case Others(other) => Some(s.(active := AfterStep(s.active, other)))
    case List(children) =>
      if s.todo != [] && s.todo[0].Visit? && Lists(s.active, s.todo[0].run, children)
      then Some(s.(todo := children + s.todo[1..])) else None
    case CancelNext =>
      if s.todo != [] && s.todo[0].CancelListed?
      then Some(s.(hit := s.hit + {(s.todo[0].run, s.todo[0].entry)}, todo := [Visit(s.todo[0].run)] + s.todo[1..]))
      else None
  }

  function Exec(s: State, steps: seq<Step>): Option<State>
    decreases |steps|
  {
    if steps == [] then Some(s) else
    match Apply(s, steps[0])
    case Some(next) => Exec(next, steps[1..])
    case None => None
  }

  // ---- Every run that stays is reached ----

  /** The runs of the family are active, with the entries the family gives. */
  predicate Holds(active: Active, family: Active)
  {
    forall r :: r in family ==> r in active && active[r] == family[r]
  }

  predicate HoldsThroughout(s: State, steps: seq<Step>, family: Active)
    decreases |steps|
  {
    && Holds(s.active, family)
    && (steps != [] ==>
          var next := Apply(s, steps[0]);
          next.Some? && HoldsThroughout(next.value, steps[1..], family))
  }

  /** Every run of the family descends from the root through the family. */
  predicate RootedAt(family: Active, root: RunId, depth: RunId -> nat)
  {
    && root !in family
    && forall r :: r in family ==>
         && family[r].parent.Some?
         && (family[r].parent.value == root || family[r].parent.value in family)
         && depth(family[r].parent.value) < depth(r)
  }

  /** A run whose children the cascade has listed, or is going to list. */
  predicate Taken(s: State, root: RunId, family: Active, p: RunId)
  {
    p == root || (p in family && (p, family[p]) in s.hit)
  }

  /** Nobody slips through: below a run that is taken, each of the family is cancelled, listed or yet to be
      listed. */
  ghost predicate Covers(s: State, root: RunId, family: Active)
  {
    && (forall r :: r in family && family[r].parent.Some? && Taken(s, root, family, family[r].parent.value) ==>
          || Visit(family[r].parent.value) in s.todo
          || CancelListed(r, family[r]) in s.todo
          || (r, family[r]) in s.hit)
    && (forall t :: t in s.todo && t.CancelListed? && t.run in family ==> t.entry == family[t.run])
  }

  lemma ListingCovers(s: State, root: RunId, family: Active, children: seq<Task>)
    requires Covers(s, root, family) && Holds(s.active, family) && Apply(s, List(children)).Some?
    ensures Covers(Apply(s, List(children)).value, root, family)
  {
    var t, p := Apply(s, List(children)).value, s.todo[0].run;
    assert s.todo == [s.todo[0]] + s.todo[1..];
    assert forall task :: task in t.todo <==> task in children || task in s.todo[1..];
    forall r | r in family && family[r].parent.Some? && Taken(t, root, family, family[r].parent.value)
      ensures Visit(family[r].parent.value) in t.todo || CancelListed(r, family[r]) in t.todo || (r, family[r]) in t.hit
    {
      assert Taken(s, root, family, family[r].parent.value);
      if family[r].parent.value == p {
        assert r in Children(s.active, p);
      }
    }
  }

  lemma CancellingCovers(s: State, root: RunId, family: Active)
    requires Covers(s, root, family) && Apply(s, CancelNext).Some?
    ensures Covers(Apply(s, CancelNext).value, root, family)
  {
    var t, run := Apply(s, CancelNext).value, s.todo[0].run;
    assert s.todo == [s.todo[0]] + s.todo[1..];
    assert forall task :: task in t.todo <==> task == Visit(run) || task in s.todo[1..];
    forall r | r in family && family[r].parent.Some? && Taken(t, root, family, family[r].parent.value)
      ensures Visit(family[r].parent.value) in t.todo || CancelListed(r, family[r]) in t.todo || (r, family[r]) in t.hit
    {
      if family[r].parent.value != run {
        assert Taken(s, root, family, family[r].parent.value);
      }
    }
  }

  lemma {:induction false} CascadeCovers(s: State, steps: seq<Step>, root: RunId, family: Active)
    requires Covers(s, root, family) && HoldsThroughout(s, steps, family)
    ensures Exec(s, steps).Some? && Covers(Exec(s, steps).value, root, family)
    decreases |steps|
  {
    hide Covers, Lists, AfterStep;
    if steps != [] {
      match steps[0] {
        case Others(_) => OthersCover(s, steps[0], root, family);
        case List(children) => ListingCovers(s, root, family, children);
        case CancelNext => CancellingCovers(s, root, family);
      }
      CascadeCovers(Apply(s, steps[0]).value, steps[1..], root, family);
    }
  }

  lemma OthersCover(s: State, step: Step, root: RunId, family: Active)
    requires Covers(s, root, family) && step.Others?
    ensures Covers(Apply(s, step).value, root, family)
  {
    var t := Apply(s, step).value;
    assert forall p :: Taken(t, root, family, p) <==> Taken(s, root, family, p);
  }

  lemma {:induction false} NothingLeftOut(s: State, root: RunId, family: Active, depth: RunId -> nat, r: RunId)
    requires Covers(s, root, family) && s.todo == [] && RootedAt(family, root, depth) && r in family
    ensures (r, family[r]) in s.hit
    decreases depth(r)
  {
    var p := family[r].parent.value;
    if p != root {
      NothingLeftOut(s, root, family, depth, p);
    }
    assert Taken(s, root, family, p);
  }

  /** Whatever is registered and removed while the cascade is under way: when it ends, every run that was active
      throughout, with every run between it and the cancelled one, has been cancelled. */
  lemma WhoStaysIsCancelled(active: Active, root: RunId, steps: seq<Step>, family: Active, depth: RunId -> nat)
    requires root in active && RootedAt(family, root, depth)
    requires HoldsThroughout(Begun(active, root), steps, family)
    requires Exec(Begun(active, root), steps).Some? && Exec(Begun(active, root), steps).value.todo == []
    ensures forall r :: r in family ==> (r, family[r]) in Exec(Begun(active, root), steps).value.hit
  {
    var s := Begun(active, root);
    assert Covers(s, root, family) by {
      assert Visit(root) in s.todo;
    }
    CascadeCovers(s, steps, root, family);
    forall r | r in family ensures (r, family[r]) in Exec(s, steps).value.hit {
      NothingLeftOut(Exec(s, steps).value, root, family, depth, r);
    }
  }

  // ---- And nobody else ----

  /** The entry was in the registry at some moment of the cascade. */
  predicate WasActive(s: State, steps: seq<Step>, r: RunId, entry: ActiveRun)
    decreases |steps|
  {
    || (r in s.active && s.active[r] == entry)
    || (steps != [] && Apply(s, steps[0]).Some? && WasActive(Apply(s, steps[0]).value, steps[1..], r, entry))
  }

  lemma {:induction false} HitsWereActive(s: State, steps: seq<Step>, r: RunId, entry: ActiveRun)
    requires Exec(s, steps).Some? && (r, entry) in Exec(s, steps).value.hit
    ensures (r, entry) in s.hit || CancelListed(r, entry) in s.todo || WasActive(s, steps, r, entry)
    decreases |steps|
  {
    if steps != [] {
      var next := Apply(s, steps[0]).value;
      HitsWereActive(next, steps[1..], r, entry);
      if CancelListed(r, entry) in next.todo && CancelListed(r, entry) !in s.todo {
        assert r in Children(s.active, s.todo[0].run);
      }
    }
  }

  predicate IsHit(s: State, p: RunId)
  {
    exists h :: h in s.hit && h.0 == p
  }

  /** What is listed, or was cancelled, is a child of a cancelled run; only cancelled runs are visited. */
  ghost predicate Descends(s: State, root: RunId)
  {
    && IsHit(s, root)
    && (forall t :: t in s.todo && t.Visit? ==> IsHit(s, t.run))
    && (forall t :: t in s.todo && t.CancelListed? ==> t.entry.parent.Some? && IsHit(s, t.entry.parent.value))
    && (forall h :: h in s.hit && h.0 != root ==> h.1.parent.Some? && IsHit(s, h.1.parent.value))
  }

  lemma StepDescends(s: State, step: Step, root: RunId)
    requires Descends(s, root) && Apply(s, step).Some?
    ensures Descends(Apply(s, step).value, root)
  {
    var t := Apply(s, step).value;
    forall p | IsHit(s, p) ensures IsHit(t, p) {
      var h :| h in s.hit && h.0 == p;
      assert h in t.hit;
    }
    if step.CancelNext? {
      var h := (s.todo[0].run, s.todo[0].entry);
      assert h in t.hit && h.0 == s.todo[0].run;
      assert s.todo[0] in s.todo;
    } else if step.List? {
      assert s.todo[0] in s.todo && IsHit(s, s.todo[0].run);
    }
  }

  lemma {:induction false} CascadeDescends(s: State, steps: seq<Step>, root: RunId)
    requires Descends(s, root) && Exec(s, steps).Some?
    ensures Descends(Exec(s, steps).value, root)
    decreases |steps|
  {
    hide Descends, Apply;
    if steps != [] {
      StepDescends(s, steps[0], root);
      CascadeDescends(Apply(s, steps[0]).value, steps[1..], root);
    }
  }

  /** At any moment of the cascade, what has been cancelled besides the run itself was registered at some moment of
      it, as a child of a run that has been cancelled. */
  lemma OnlyDescendantsAreCancelled(active: Active, root: RunId, steps: seq<Step>, r: RunId, entry: ActiveRun)
    requires root in active && Exec(Begun(active, root), steps).Some?
    requires (r, entry) in Exec(Begun(active, root), steps).value.hit && r != root
    ensures WasActive(Begun(active, root), steps, r, entry)
    ensures entry.parent.Some? && IsHit(Exec(Begun(active, root), steps).value, entry.parent.value)
  {
    var s := Begun(active, root);
    HitsWereActive(s, steps, r, entry);
    assert Descends(s, root) by {
      assert (root, active[root]) in s.hit && (root, active[root]).0 == root;
    }
    CascadeDescends(s, steps, root);
    var h := (r, entry);
    assert h in Exec(s, steps).value.hit;
  }

  // ---- Who exactly ----

  /** At some moment the cascade listed the children of the run's parent, and the run was among them. */
  predicate WasListed(s: State, steps: seq<Step>, r: RunId, entry: ActiveRun)
    decreases |steps|
  {
    && steps != [] && Apply(s, steps[0]).Some?
    && (|| (steps[0].List? && r in Children(s.active, s.todo[0].run) && s.active[r] == entry)
        || WasListed(Apply(s, steps[0]).value, steps[1..], r, entry))
  }

  predicate Due(s: State, steps: seq<Step>, r: RunId, entry: ActiveRun)
  {
    (r, entry) in s.hit || CancelListed(r, entry) in s.todo || WasListed(s, steps, r, entry)
  }

  lemma StepKeepsDue(s: State, steps: seq<Step>, r: RunId, entry: ActiveRun)
    requires steps != [] && Apply(s, steps[0]).Some?
    ensures Due(s, steps, r, entry) <==> Due(Apply(s, steps[0]).value, steps[1..], r, entry)
  {
    var t := Apply(s, steps[0]).value;
    var task := CancelListed(r, entry);
    if !steps[0].Others? {
      assert s.todo == [s.todo[0]] + s.todo[1..];
    }
    if steps[0].List? {
      assert task in t.todo <==> task in steps[0].children || task in s.todo[1..];
    } else if steps[0].CancelNext? {
      assert task in t.todo <==> task in s.todo[1..];
    }
  }

  lemma {:induction false} HitIffDue(s: State, steps: seq<Step>, r: RunId, entry: ActiveRun)
    requires Exec(s, steps).Some? && Exec(s, steps).value.todo == []
    ensures (r, entry) in Exec(s, steps).value.hit <==> Due(s, steps, r, entry)
    decreases |steps|
  {
    if steps != [] {
      StepKeepsDue(s, steps, r, entry);
      hide Apply, Due;
      HitIffDue(Apply(s, steps[0]).value, steps[1..], r, entry);
    }
  }

  /** A run other than the one that is cancelled is cancelled with it if and only if it is registered at a moment
      when the cascade visits its parent. */
  lemma CancelledIffListed(active: Active, root: RunId, steps: seq<Step>, r: RunId, entry: ActiveRun)
    requires root in active && r != root
    requires Exec(Begun(active, root), steps).Some? && Exec(Begun(active, root), steps).value.todo == []
    ensures var s := Begun(active, root);
      (r, entry) in Exec(s, steps).value.hit <==> WasListed(s, steps, r, entry)
  {
    HitIffDue(Begun(active, root), steps, r, entry);
  }

  /** A child registered after its parent was visited is not cancelled: staying throughout is needed. */
  lemma LatecomersAreNotCancelled(active: Active, root: RunId, late: RunId, session: string, token: Token)
    requires root in active && late !in active && Children(active, root) == {}
    ensures var entry := ActiveRun(session, 0, Some(root), token);
      var end := Exec(Begun(active, root), [List([]), Others(Registered(late, entry))]);
      && end.Some? && end.value.todo == []
      && late in Children(end.value.active, root) && !IsHit(end.value, late)
  {
    var entry := ActiveRun(session, 0, Some(root), token);
    var s := Begun(active, root);
    var steps := [List([]), Others(Registered(late, entry))];
    assert Lists(active, root, []);
    assert steps[1..] == [Others(Registered(late, entry))] && steps[1..][1..] == [];
    assert [] + s.todo[1..] == [];
    var visited := Apply(s, steps[0]).value;
    assert Exec(visited, steps[1..]) == Exec(Apply(visited, steps[1]).value, []);
  }
}
