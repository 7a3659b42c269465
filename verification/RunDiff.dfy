/** The diff of a run against its start, from baselines captured lazily: a file's content before the
    first write to it, and what HEAD held for files that were clean before an Exec. File contents stand
    for their hashes, paths for their folded keys. */
module RunDiff {
  import opened Text

  type Path = string
  type Content = string
  type Tree = map<Path, Content>

  function At(t: Tree, p: Path): Option<Content>
  {
    if p in t then Some(t[p]) else None
  }

  /** What the run sees of a checkout: HEAD, the index, the working tree, and the paths that ignore
      rules match. */
  datatype Checkout = Checkout(head: Tree, index: Tree, work: Tree, ignored: set<Path>)

  // ---- `git status --porcelain=v1`, without renames ----

  datatype Entry = Entry(indexStatus: char, worktreeStatus: char, path: Path)

  function IndexStatus(c: Checkout, p: Path): char
  {
    if At(c.index, p) == At(c.head, p) then ' '
    else if p !in c.head then 'A' else if p !in c.index then 'D' else 'M'
  }

  function WorktreeStatus(c: Checkout, p: Path): char
  {
    if p !in c.index || At(c.work, p) == At(c.index, p) then ' ' else if p !in c.work then 'D' else 'M'
  }

  predicate TrackedChange(c: Checkout, p: Path)
  {
    IndexStatus(c, p) != ' ' || WorktreeStatus(c, p) != ' '
  }

  predicate Untracked(c: Checkout, p: Path)
  {
    p in c.work && p !in c.index && p !in c.ignored
  }

  function TrackedEntry(c: Checkout, p: Path): Entry
  {
    Entry(IndexStatus(c, p), WorktreeStatus(c, p), p)
  }

  function UntrackedEntry(p: Path): Entry
  {
    Entry('?', '?', p)
  }

  /** A status listing: every tracked change and every untracked file, the former first. A path removed
      from the index but kept in the working tree is listed twice. */
  ghost predicate StatusOf(entries: seq<Entry>, c: Checkout)
  {
    && (forall k :: 0 <= k < |entries| ==>
          var e := entries[k];
          || (e == TrackedEntry(c, e.path) && TrackedChange(c, e.path))
          || (e == UntrackedEntry(e.path) && Untracked(c, e.path)))
    && (forall p :: TrackedChange(c, p) ==> TrackedEntry(c, p) in entries)
    && (forall p :: Untracked(c, p) ==> UntrackedEntry(p) in entries)
    && (forall j, k :: 0 <= j < k < |entries| && entries[j].indexStatus == '?' ==> entries[k].indexStatus == '?')
  }

  predicate StatusIsAdded(e: Entry)
  {
    e.indexStatus == '?' || e.indexStatus == 'A' || e.worktreeStatus == '?' || e.worktreeStatus == 'A'
  }

  predicate Listed(entries: seq<Entry>, p: Path)
  {
    exists k :: 0 <= k < |entries| && entries[k].path == p
  }

  /** The path is not hidden from status: ignore rules hide only files unknown to index and HEAD. */
  predicate Visible(c: Checkout, p: Path)
  {
    p !in c.ignored || p in c.index || p in c.head
  }

  lemma ChangeIsListed(entries: seq<Entry>, c: Checkout, p: Path)
    ensures StatusOf(entries, c) && (TrackedChange(c, p) || Untracked(c, p)) ==> Listed(entries, p)
  {
    if StatusOf(entries, c) && (TrackedChange(c, p) || Untracked(c, p)) {
      assert TrackedEntry(c, p) in entries || UntrackedEntry(p) in entries;
    }
  }

  /** A visible path that status does not list holds what HEAD holds. */
  lemma UnlistedIsClean(entries: seq<Entry>, c: Checkout, p: Path)
    requires StatusOf(entries, c) && Visible(c, p) && !Listed(entries, p)
    ensures At(c.work, p) == At(c.head, p)
  {
    if TrackedChange(c, p) || Untracked(c, p) {
      ChangeIsListed(entries, c, p);
    }
  }

  /** The first entry of a path says `added` exactly when HEAD has nothing there. */
  lemma FirstEntryTellsAdded(entries: seq<Entry>, c: Checkout, k: nat)
    requires StatusOf(entries, c) && k < |entries| && !Listed(entries[..k], entries[k].path)
    ensures StatusIsAdded(entries[k]) <==> entries[k].path !in c.head
  {
    var e := entries[k];
    if e == UntrackedEntry(e.path) && TrackedChange(c, e.path) {
      assert TrackedEntry(c, e.path) in entries;
      var j :| 0 <= j < |entries| && entries[j] == TrackedEntry(c, e.path);
      if j < k {
        assert entries[..k][j].path == e.path;
      }
    }
  }

  // ---- Baselines ----

  /** The content each captured file had at the start of the run; None for a file that did not exist. */
  type Baselines = map<Path, Option<Content>>

  /** The store inserts a baseline only where there is none. */
  function Capture(b: Baselines, p: Path, content: Option<Content>): Baselines
  {
    if p in b then b else b[p := content]
  }

  function CaptureCurrent(b: Baselines, work: Tree, entries: seq<Entry>): Baselines
    decreases |entries|
  {
    if entries == [] then b
    else CaptureCurrent(Capture(b, entries[0].path, At(work, entries[0].path)), work, entries[1..])
  }

  function HeadBaseline(head: Tree, e: Entry): Option<Content>
  {
    if StatusIsAdded(e) then None else At(head, e.path)
  }

  function FillFromHead(b: Baselines, head: Tree, entries: seq<Entry>): Baselines
    decreases |entries|
  {
    if entries == [] then b
    else FillFromHead(Capture(b, entries[0].path, HeadBaseline(head, entries[0])), head, entries[1..])
  }

  /** The manifest: captured files whose content is no longer the captured one. */
  function Manifest(b: Baselines, work: Tree): set<Path>
  {
    set p | p in b && b[p] != At(work, p)
  }

  lemma {:induction false} CapturedPaths(b: Baselines, work: Tree, entries: seq<Entry>, p: Path)
    ensures var r := CaptureCurrent(b, work, entries);
      && (p in r <==> p in b || Listed(entries, p))
      && (p in b ==> r[p] == b[p])
      && (p in r && p !in b ==> r[p] == At(work, p))
    decreases |entries|
  {
    if entries != [] {
      CapturedPaths(Capture(b, entries[0].path, At(work, entries[0].path)), work, entries[1..], p);
      ListedStep(entries, p);
    }
  }

  lemma ListedStep(entries: seq<Entry>, p: Path)
    ensures entries != [] ==> (Listed(entries, p) <==> entries[0].path == p || Listed(entries[1..], p))
  {
    if entries != [] {
      if Listed(entries, p) && entries[0].path != p {
        var k :| 0 <= k < |entries| && entries[k].path == p;
        assert entries[1..][k - 1].path == p;
      }
      if k :| 0 <= k < |entries[1..]| && entries[1..][k].path == p {
        assert entries[k + 1].path == p;
      }
    }
  }

  /** What the entries `from..end` of a listing fill in: HEAD's content for every path without baseline. */
  lemma {:induction false} FilledPaths(b: Baselines, c: Checkout, entries: seq<Entry>, from: nat, end: nat, p: Path)
    requires StatusOf(entries, c) && from <= end <= |entries|
    requires forall k :: 0 <= k < from ==> entries[k].path in b
    ensures var r := FillFromHead(b, c.head, entries[from..end]);
      && (p in r <==> p in b || Listed(entries[from..end], p))
      && (p in b ==> r[p] == b[p])
      && (p in r && p !in b ==> r[p] == At(c.head, p))
    decreases end - from
  {
    if from < end {
      var e := entries[from];
      ListedStep(entries[from..end], p);
      assert entries[from..end][1..] == entries[from + 1..end];
      if e.path !in b {
        FirstEntryTellsAdded(entries, c, from);
      }
      FilledPaths(Capture(b, e.path, HeadBaseline(c.head, e)), c, entries, from + 1, end, p);
    }
  }

  // ---- A run ----

  /** A captured write of one path, or an Exec that may change anything. `recorded` is how many entries
      of the status taken after the Exec were processed: all of them when the Exec completed, none when
      it failed, timed out or was cancelled. */
  datatype Step =
    | Write(path: Path, content: Option<Content>)
    | Exec(before: seq<Entry>, checkout: Checkout, after: seq<Entry>, recorded: nat)

  datatype Run = Run(baselines: Baselines, checkout: Checkout)

  function SetFile(t: Tree, p: Path, content: Option<Content>): Tree
  {
    if content.Some? then t[p := content.value] else t - {p}
  }

  function After(r: Run, step: Step): Run
  {
    match step
    case Write(path, content) =>
      Run(Capture(r.baselines, path, At(r.checkout.work, path)),
          r.checkout.(work := SetFile(r.checkout.work, path, content)))
    case Exec(before, checkout, after, recorded) =>
      var captured := CaptureCurrent(r.baselines, r.checkout.work, before);
      Run(FillFromHead(captured, checkout.head, if recorded <= |after| then after[..recorded] else after), checkout)
  }

  function Perform(r: Run, steps: seq<Step>): Run
    decreases |steps|
  {
    if steps == [] then r else Perform(After(r, steps[0]), steps[1..])
  }

  /** The status listings of an Exec are those of the checkout before and after it. */
  ghost predicate StepOk(r: Run, step: Step)
  {
    step.Exec? ==>
      StatusOf(step.before, r.checkout) && StatusOf(step.after, step.checkout) && step.recorded <= |step.after|
  }

  ghost predicate StepsOk(r: Run, steps: seq<Step>)
    decreases |steps|
  {
    steps != [] ==> StepOk(r, steps[0]) && StepsOk(After(r, steps[0]), steps[1..])
  }

  /** `start` is what the path held when the run began: either that is its baseline, or it holds it yet. */
  predicate Accounted(r: Run, p: Path, start: Option<Content>)
  {
    if p in r.baselines then r.baselines[p] == start else At(r.checkout.work, p) == start
  }

  /** The Exec was recorded to its end, HEAD holds the same for the path as before, and ignore rules do
      not hide the path before or after. */
  predicate FollowsPath(r: Run, step: Step, p: Path)
  {
    step.Exec? ==>
      && step.recorded == |step.after|
      && At(step.checkout.head, p) == At(r.checkout.head, p)
      && Visible(r.checkout, p) && Visible(step.checkout, p)
  }

  predicate FollowsThroughout(r: Run, steps: seq<Step>, p: Path)
    decreases |steps|
  {
    steps != [] ==> FollowsPath(r, steps[0], p) && FollowsThroughout(After(r, steps[0]), steps[1..], p)
  }

  /** A path captured for an Exec, or before, keeps its account whatever the Exec does and however it
      ends. */
  lemma CapturedStaysAccounted(r: Run, step: Step, p: Path, start: Option<Content>)
    requires StepOk(r, step) && Accounted(r, p, start)
    requires p in r.baselines || step.Write? || Listed(step.before, p)
    ensures Accounted(After(r, step), p, start)
  {
    if step.Exec? {
      CapturedPaths(r.baselines, r.checkout.work, step.before, p);
      FillKeeps(CaptureCurrent(r.baselines, r.checkout.work, step.before), step.checkout.head,
                step.after[..step.recorded], p);
    }
  }

  lemma {:induction false} FillKeeps(b: Baselines, head: Tree, entries: seq<Entry>, p: Path)
    ensures p in b ==> p in FillFromHead(b, head, entries) && FillFromHead(b, head, entries)[p] == b[p]
    decreases |entries|
  {
    if entries != [] {
      FillKeeps(Capture(b, entries[0].path, HeadBaseline(head, entries[0])), head, entries[1..], p);
    }
  }

  /** The content an Exec leaves to be compared with for a path without baseline: what HEAD holds after it,
      for a path the recorded part of the new status lists; otherwise what the path holds. */
  function TakenFor(step: Step, p: Path): Option<Content>
    requires step.Exec? && step.recorded <= |step.after|
  {
    At(if Listed(step.after[..step.recorded], p) then step.checkout.head else step.checkout.work, p)
  }

  /** A path that is neither captured nor dirty before an Exec keeps its account over it, however much of the
      new status was recorded and whether or not ignore rules hide it, if and only if the content it is taken
      for is the one it held before. */
  lemma ExecAccountedIff(r: Run, step: Step, p: Path, start: Option<Content>)
    requires step.Exec? && StepOk(r, step) && Accounted(r, p, start)
    requires p !in r.baselines && !Listed(step.before, p)
    ensures Accounted(After(r, step), p, start) <==> TakenFor(step, p) == At(r.checkout.work, p)
    ensures p in After(r, step).baselines <==> Listed(step.after[..step.recorded], p)
    ensures p in After(r, step).baselines ==> After(r, step).baselines[p] == TakenFor(step, p)
  {
    CapturedPaths(r.baselines, r.checkout.work, step.before, p);
    var captured := CaptureCurrent(r.baselines, r.checkout.work, step.before);
    FilledPaths(captured, step.checkout, step.after, 0, step.recorded, p);
    assert step.after[0..step.recorded] == step.after[..step.recorded];
  }

  /** Seen by git before and after a completed Exec, it does if and only if the Exec left HEAD alone at it. */
  lemma CleanPathAccountedIff(r: Run, step: Step, p: Path, start: Option<Content>)
    requires step.Exec? && StepOk(r, step) && Accounted(r, p, start) && step.recorded == |step.after|
    requires p !in r.baselines && !Listed(step.before, p)
    requires Visible(r.checkout, p) && Visible(step.checkout, p)
    ensures Accounted(After(r, step), p, start) <==> At(step.checkout.head, p) == At(r.checkout.head, p)
  {
    UnlistedIsClean(step.before, r.checkout, p);
    ExecAccountedIff(r, step, p, start);
    assert step.after[..step.recorded] == step.after;
    if !Listed(step.after, p) {
      UnlistedIsClean(step.after, step.checkout, p);
    }
  }

  /** Hidden by ignore rules before and after it, the path does if and only if the Exec did not change it. */
  lemma HiddenPathAccountedIff(r: Run, step: Step, p: Path, start: Option<Content>)
    requires step.Exec? && StepOk(r, step) && Accounted(r, p, start)
    requires p !in r.baselines && !Visible(r.checkout, p) && !Visible(step.checkout, p)
    ensures Accounted(After(r, step), p, start) <==> At(step.checkout.work, p) == At(r.checkout.work, p)
  {
    HiddenIsUnlisted(step.before, r.checkout, p);
    HiddenIsUnlisted(step.after, step.checkout, p);
    ExecAccountedIff(r, step, p, start);
  }

  lemma HiddenIsUnlisted(entries: seq<Entry>, c: Checkout, p: Path)
    ensures StatusOf(entries, c) && Listed(entries, p) ==> Visible(c, p)
  {
  }

  lemma StepStaysAccounted(r: Run, step: Step, p: Path, start: Option<Content>)
    requires StepOk(r, step) && FollowsPath(r, step, p) && Accounted(r, p, start)
    ensures Accounted(After(r, step), p, start)
  {
    if p in r.baselines || step.Write? || Listed(step.before, p) {
      CapturedStaysAccounted(r, step, p, start);
    } else {
      CleanPathAccountedIff(r, step, p, start);
    }
  }

  lemma {:induction false} RunStaysAccounted(r: Run, steps: seq<Step>, p: Path, start: Option<Content>)
    requires StepsOk(r, steps) && FollowsThroughout(r, steps, p) && Accounted(r, p, start)
    ensures Accounted(Perform(r, steps), p, start)
    decreases |steps|
  {
    if steps != [] {
      StepStaysAccounted(r, steps[0], p, start);
      RunStaysAccounted(After(r, steps[0]), steps[1..], p, start);
    }
  }

  /** The run diff is exact: after any run of captured writes and Execs, a path is in the manifest if and
      only if its content differs from what it was at the start of the run, and what the manifest then
      shows as the previous content is the content at the start. A user's earlier edit is part of the
      start and never shows. */
  lemma RunDiffIsExact(start: Checkout, steps: seq<Step>, p: Path)
    requires StepsOk(Run(map[], start), steps) && FollowsThroughout(Run(map[], start), steps, p)
    ensures var end := Perform(Run(map[], start), steps);
      && (p in Manifest(end.baselines, end.checkout.work) <==> At(end.checkout.work, p) != At(start.work, p))
      && (p in end.baselines ==> end.baselines[p] == At(start.work, p))
  {
    RunStaysAccounted(Run(map[], start), steps, p, At(start.work, p));
  }

  // ---- Exactly when it is exact ----

  /** The manifest tells the truth about the path: it lists it if and only if its content is not that at the
      start, and shows the content at the start as the previous one. */
  predicate ExactAt(end: Run, p: Path, start: Option<Content>)
  {
    && (p in Manifest(end.baselines, end.checkout.work) <==> At(end.checkout.work, p) != start)
    && (p in end.baselines ==> end.baselines[p] == start)
  }

  lemma ExactIffAccounted(end: Run, p: Path, start: Option<Content>)
    ensures ExactAt(end, p, start) <==> Accounted(end, p, start)
  {
  }

  /** What the first step to notice the path takes for its content at the start, read off the checkouts and
      their listings alone: what it holds when it is written or when an Exec finds it dirty, what HEAD holds
      after the Exec whose recorded status lists it first; at the end, if no step noticed it, what it holds. */
  function FirstNoticed(checkout: Checkout, steps: seq<Step>, p: Path): Option<Content>
    decreases |steps|
  {
    if steps == [] then At(checkout.work, p) else
    match steps[0]
    case Write(path, content) =>
      if path == p then At(checkout.work, p)
      else FirstNoticed(checkout.(work := SetFile(checkout.work, path, content)), steps[1..], p)
    case Exec(before, next, after, recorded) =>
      if Listed(before, p) then At(checkout.work, p)
      else if recorded <= |after| && Listed(after[..recorded], p) then At(next.head, p)
      else FirstNoticed(next, steps[1..], p)
  }

  lemma {:induction false} CapturedForGood(r: Run, steps: seq<Step>, p: Path)
    requires p in r.baselines
    ensures p in Perform(r, steps).baselines && Perform(r, steps).baselines[p] == r.baselines[p]
    decreases |steps|
  {
    if steps != [] {
      var step := steps[0];
      if step.Exec? {
        CapturedPaths(r.baselines, r.checkout.work, step.before, p);
        FillKeeps(CaptureCurrent(r.baselines, r.checkout.work, step.before), step.checkout.head,
                  if step.recorded <= |step.after| then step.after[..step.recorded] else step.after, p);
      }
      CapturedForGood(After(r, step), steps[1..], p);
    }
  }

  /** One step either leaves the path without baseline, or gives it what `FirstNoticed` says. */
  lemma FirstStepNotices(r: Run, step: Step, later: seq<Step>, p: Path)
    requires StepOk(r, step) && p !in r.baselines
    ensures var next, noticed := After(r, step), FirstNoticed(r.checkout, [step] + later, p);
      if p in next.baselines then next.baselines[p] == noticed else noticed == FirstNoticed(next.checkout, later, p)
  {
    assert ([step] + later)[1..] == later;
    if step.Exec? {
      if Listed(step.before, p) {
        CapturedPaths(r.baselines, r.checkout.work, step.before, p);
        FillKeeps(CaptureCurrent(r.baselines, r.checkout.work, step.before), step.checkout.head,
                  step.after[..step.recorded], p);
      } else {
        ExecAccountedIff(r, step, p, At(r.checkout.work, p));
      }
    }
  }

  lemma {:induction false} NoticedDecides(r: Run, steps: seq<Step>, p: Path, start: Option<Content>)
    requires StepsOk(r, steps) && p !in r.baselines
    ensures Accounted(Perform(r, steps), p, start) <==> FirstNoticed(r.checkout, steps, p) == start
    decreases |steps|
  {
    if steps != [] {
      var next := After(r, steps[0]);
      assert [steps[0]] + steps[1..] == steps;
      FirstStepNotices(r, steps[0], steps[1..], p);
      if p in next.baselines {
        CapturedForGood(next, steps[1..], p);
      } else {
        NoticedDecides(next, steps[1..], p, start);
      }
    }
  }

  /** For every run, with HEAD moving, status unrecorded or recorded in part and paths hidden as they may: the
      diff is exact at a path if and only if what the first step to notice it takes for its content at the
      start is that content. */
  lemma RunDiffIsExactIff(start: Checkout, steps: seq<Step>, p: Path)
    requires StepsOk(Run(map[], start), steps)
    ensures ExactAt(Perform(Run(map[], start), steps), p, At(start.work, p))
       <==> FirstNoticed(start, steps, p) == At(start.work, p)
  {
    NoticedDecides(Run(map[], start), steps, p, At(start.work, p));
    ExactIffAccounted(Perform(Run(map[], start), steps), p, At(start.work, p));
  }

  // ---- Where it stops being exact ----

  /** An Exec that was not recorded keeps the account of an uncaptured path if and only if it did not
      change it. */
  lemma UnrecordedExecAccountedIff(r: Run, step: Step, p: Path, start: Option<Content>)
    requires step.Exec? && StepOk(r, step) && Accounted(r, p, start) && step.recorded == 0
    requires p !in r.baselines && !Listed(step.before, p)
    ensures Accounted(After(r, step), p, start) <==> At(step.checkout.work, p) == At(r.checkout.work, p)
  {
    ExecAccountedIff(r, step, p, start);
  }

  /** A change made by an Exec that timed out is taken for the user's by the next Exec, and never enters
      the diff. */
  lemma UnrecordedChangeIsLost()
    ensures var clean := Checkout(map["a" := "old"], map["a" := "old"], map["a" := "old"], {});
      var dirty := clean.(work := map["a" := "new"]);
      var listing := [TrackedEntry(dirty, "a")];
      var steps := [Exec([], dirty, listing, 0), Exec(listing, dirty, listing, 1)];
      var end := Perform(Run(map[], clean), steps);
      && StepsOk(Run(map[], clean), steps)
      && At(end.checkout.work, "a") == Some("new") && Manifest(end.baselines, end.checkout.work) == {}
  {
    var clean := Checkout(map["a" := "old"], map["a" := "old"], map["a" := "old"], {});
    var dirty := clean.(work := map["a" := "new"]);
    var listing := [TrackedEntry(dirty, "a")];
    var first, second := Exec([], dirty, listing, 0), Exec(listing, dirty, listing, 1);
    var r1 := After(Run(map[], clean), first);
    assert listing[..0] == [] && listing[..1] == listing && listing[1..] == [];
    assert r1 == Run(map[], dirty);
    var captured := CaptureCurrent(map[], dirty.work, listing);
    assert captured == CaptureCurrent(map["a" := Some("new")], dirty.work, []);
    assert After(r1, second) == Run(FillFromHead(captured, dirty.head, listing), dirty);
    assert FillFromHead(captured, dirty.head, listing) == FillFromHead(captured, dirty.head, []);
    assert [first, second][1..] == [second] && [second][1..] == [];
    assert Perform(Run(map[], clean), [first, second]) == Perform(r1, [second]) == After(r1, second);
    assert StatusOf([], clean) && StatusOf(listing, dirty);
    assert StepsOk(r1, [second]);
  }

  /** An Exec that commits its change hides it. */
  lemma CommittedChangeIsLost()
    ensures var clean := Checkout(map["a" := "old"], map["a" := "old"], map["a" := "old"], {});
      var committed := Checkout(map["a" := "new"], map["a" := "new"], map["a" := "new"], {});
      var step := Exec([], committed, [], 0);
      var end := After(Run(map[], clean), step);
      && StepOk(Run(map[], clean), step)
      && At(end.checkout.work, "a") == Some("new") && Manifest(end.baselines, end.checkout.work) == {}
  {
  }

  /** An Exec that writes a file hidden by ignore rules leaves no trace of it. */
  lemma IgnoredChangeIsLost()
    ensures var clean := Checkout(map[], map[], map[], {"out"});
      var built := clean.(work := map["out" := "artifact"]);
      var step := Exec([], built, [], 0);
      var end := After(Run(map[], clean), step);
      && StepOk(Run(map[], clean), step)
      && At(end.checkout.work, "out") == Some("artifact") && Manifest(end.baselines, end.checkout.work) == {}
  {
  }

  // ---- The tracker ----

  class RunDiffTracker {
    var baselines: Baselines

    constructor ()
      ensures baselines == map[]
    {
      baselines := map[];
    }

    method HasBaseline(path: Path) returns (found: bool)
      ensures found <==> path in baselines
    {
      found := path in baselines;
    }

    method CaptureMaterialized(path: Path, content: Option<Content>)
      modifies this
      ensures baselines == Capture(old(baselines), path, content)
    {
      if path !in baselines {
        baselines := baselines[path := content];
      }
    }

    method CaptureBeforeWrite(path: Path, work: Tree)
      modifies this
      ensures baselines == Capture(old(baselines), path, At(work, path))
    {
      var found := HasBaseline(path);
      if found {
        return;
      }
      CaptureMaterialized(path, At(work, path));
    }

    /** Files already dirty before an Exec keep their current content as baseline. */
    method CaptureBeforeExec(status: seq<Entry>, work: Tree)
      modifies this
      ensures baselines == CaptureCurrent(old(baselines), work, status)
    {
      var k := 0;
      while k < |status|
        invariant k <= |status|
        invariant CaptureCurrent(baselines, work, status[k..]) == CaptureCurrent(old(baselines), work, status)
      {
        assert status[k..][0] == status[k] && status[k..][1..] == status[k + 1..];
        CaptureBeforeWrite(status[k].path, work);
        k := k + 1;
      }
      assert status[k..] == [];
    }

    /** After an Exec, files it made dirty get what HEAD held as baseline; then the manifest is rebuilt. */
    method RecordExecAndRefresh(status: seq<Entry>, checkout: Checkout) returns (manifest: set<Path>)
      modifies this
      ensures baselines == FillFromHead(old(baselines), checkout.head, status)
      ensures manifest == Manifest(baselines, checkout.work)
    {
      var k := 0;
      while k < |status|
        invariant k <= |status|
        invariant FillFromHead(baselines, checkout.head, status[k..])
                  == FillFromHead(old(baselines), checkout.head, status)
      {
        var entry := status[k];
        assert status[k..][0] == entry && status[k..][1..] == status[k + 1..];
        k := k + 1;
        var found := HasBaseline(entry.path);
        if found {
          continue;
        }
        var baseline := if StatusIsAdded(entry) then None else At(checkout.head, entry.path);
        CaptureMaterialized(entry.path, baseline);
      }
      assert status[k..] == [];
      manifest := Refresh(checkout.work);
    }

    method Refresh(work: Tree) returns (manifest: set<Path>)
      ensures manifest == Manifest(baselines, work)
    {
      manifest := {};
      var rest := baselines.Keys;
      while rest != {}
        invariant rest <= baselines.Keys
        invariant manifest == set p | p in baselines && p !in rest && baselines[p] != At(work, p)
        decreases rest
      {
        var path :| path in rest;
        rest := rest - {path};
        var previous, current := baselines[path], At(work, path);
        if previous != current {
          manifest := manifest + {path};
        }
      }
    }

    /** A whole Exec: capture, execute, record. The tracker follows the run of the model. */
    method AroundExec(ghost before: Checkout, statusBefore: seq<Entry>, workBefore: Tree,
                      after: Checkout, statusAfter: seq<Entry>) returns (manifest: set<Path>)
      requires workBefore == before.work
      modifies this
      ensures var r := After(Run(old(baselines), before), Exec(statusBefore, after, statusAfter, |statusAfter|));
        r == Run(baselines, after) && manifest == Manifest(r.baselines, r.checkout.work)
    {
      CaptureBeforeExec(statusBefore, workBefore);
      manifest := RecordExecAndRefresh(statusAfter, after);
      assert statusAfter[..|statusAfter|] == statusAfter;
    }
  }
}
