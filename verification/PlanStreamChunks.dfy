/** The projector does not depend on how the model's text is cut into deltas. */
module PlanStreamChunks {
  import opened Text
  import opened PlanStream

  // ---- The held-back suffix ----

  lemma FindIsUnique(s: string, tag: string, i: nat)
    requires OccursAt(s, tag, i)
    requires forall j: nat :: j < i ==> !OccursAt(s, tag, j)
    ensures Find(s, tag) == Some(i)
  {
  }

  lemma FindIgnoresWhatFollows(s: string, more: string, tag: string)
    requires Find(s, tag).Some?
    ensures Find(s + more, tag) == Find(s, tag)
  {
    var i := Find(s, tag).value;
    assert (s + more)[i..i + |tag|] == s[i..i + |tag|];
    forall j: nat | j < i ensures !OccursAt(s + more, tag, j) {
      assert !OccursAt(s, tag, j);
      assert (s + more)[j..j + |tag|] == s[j..j + |tag|];
    }
    FindIsUnique(s + more, tag, i);
  }

  /** An occurrence in `s + more` that is not already in `s` starts inside the held-back suffix of
      `s` or after it. */
  lemma OccurrenceStartsInHeldBack(s: string, more: string, tag: string, j: nat)
    requires |tag| > 0 && Find(s, tag).None?
    requires OccursAt(s + more, tag, j)
    ensures |s| - PartialTagPrefixLen(s, tag) <= j
  {
    if j < |s| {
      var k := |s| - j;
      if |tag| <= k {
        assert s[j..j + |tag|] == (s + more)[j..j + |tag|];
        assert OccursAt(s, tag, j);
      } else {
        assert s[j..] == (s + more)[j..j + |tag|][..k];
        assert EndsWith(s, tag[..k]);
      }
    }
  }

  lemma OccursBehind(front: string, tail: string, tag: string, j: nat)
    ensures OccursAt(front + tail, tag, |front| + j) <==> OccursAt(tail, tag, j)
  {
    if j + |tag| <= |tail| {
      assert (front + tail)[|front| + j..|front| + j + |tag|] == tail[j..j + |tag|];
    }
  }

  /** Scanning the held-back suffix followed by new text finds exactly what scanning all of the text
      would find. */
  lemma HeldBackFindsTheSame(s: string, more: string, tag: string)
    requires |tag| > 0 && Find(s, tag).None?
    ensures var end := |s| - PartialTagPrefixLen(s, tag);
      var whole := Find(s + more, tag);
      var short := Find(s[end..] + more, tag);
      && (whole.Some? <==> short.Some?)
      && (whole.Some? ==> whole.value == end + short.value)
  {
    hide *;
    var end := |s| - PartialTagPrefixLen(s, tag);
    var front, tail := s[..end], s[end..] + more;
    assert s + more == front + tail;
    var whole, short := Find(s + more, tag), Find(tail, tag);
    if whole.Some? {
      OccurrenceStartsInHeldBack(s, more, tag, whole.value);
      OccursBehind(front, tail, tag, whole.value - end);
    }
    if short.Some? {
      OccursBehind(front, tail, tag, short.value);
    }
  }

  lemma PartialIsUnique(s: string, tag: string, k: nat)
    requires k < |tag| && EndsWith(s, tag[..k])
    requires forall j: nat {:trigger EndsWith(s, tag[..j])} :: k < j < |tag| ==> !EndsWith(s, tag[..j])
    ensures PartialTagPrefixLen(s, tag) == k
  {
  }

  lemma EndOfSuffix(s: string, n: nat, end: string)
    ensures n <= |s| && EndsWith(s[n..], end) ==> EndsWith(s, end)
  {
    if n <= |s| && EndsWith(s[n..], end) {
      assert s[n..][|s| - n - |end|..] == s[|s| - |end|..];
    }
  }

  lemma EndReachesBack(s: string, more: string, tag: string, k: nat)
    requires |more| <= k <= |tag| && EndsWith(s + more, tag[..k])
    ensures EndsWith(s, tag[..k - |more|])
  {
    var n := k - |more|;
    assert s[|s| - n..] == (s + more)[|s + more| - k..][..n];
  }

  /** If dropping the first `n` characters loses no longer candidate, the held-back length stays. */
  lemma PartialOfSuffix(s: string, tag: string, n: nat)
    requires |tag| > 0 && n <= |s|
    requires forall k: nat {:trigger EndsWith(s, tag[..k])} :: |s| - n < k < |tag| ==> !EndsWith(s, tag[..k])
    ensures PartialTagPrefixLen(s[n..], tag) == PartialTagPrefixLen(s, tag)
  {
    var k := PartialTagPrefixLen(s, tag);
    assert s[n..][|s| - n - k..] == s[|s| - k..];
    forall j: nat | k < j < |tag| ensures !EndsWith(s[n..], tag[..j]) {
      if EndsWith(s[n..], tag[..j]) {
        EndOfSuffix(s, n, tag[..j]);
      }
    }
    PartialIsUnique(s[n..], tag, k);
  }

  lemma HeldBackHoldsBackTheSame(s: string, more: string, tag: string)
    requires |tag| > 0
    ensures var end := |s| - PartialTagPrefixLen(s, tag);
      PartialTagPrefixLen(s[end..] + more, tag) == PartialTagPrefixLen(s + more, tag)
  {
    var end := |s| - PartialTagPrefixLen(s, tag);
    forall k: nat | |s + more| - end < k < |tag| ensures !EndsWith(s + more, tag[..k]) {
      if EndsWith(s + more, tag[..k]) {
        EndReachesBack(s, more, tag, k);
      }
    }
    PartialOfSuffix(s + more, tag, end);
    assert (s + more)[end..] == s[end..] + more;
  }

  // ---- Emission in two parts ----

  lemma AppendTextTwice(items: seq<Item>, i: nat, x: string, y: string)
    requires i < |items|
    ensures AppendText(AppendText(items, i, x), i, y) == AppendText(items, i, x + y)
  {
    assert items[i].text + x + y == items[i].text + (x + y);
  }

  lemma AppendAssistantTwice(p: Projection, x: string, y: string)
    requires Refs(p) && p.openAssistant.Some?
    ensures AppendAssistant(AppendAssistant(p, x), y) == AppendAssistant(p, x + y)
  {
    var a := p.openAssistant.value;
    AppendTextTwice(p.items, a.item, x, y);
    assert a.text + x + y == a.text + (x + y);
  }

  lemma CommentaryTwice(p: Projection, messageId: string, x: string, y: string)
    requires Refs(p)
    ensures AppendCommentary(AppendCommentary(p, messageId, x), messageId, y)
         == AppendCommentary(p, messageId, x + y)
  {
    if x == "" {
      assert x + y == y;
    } else if y == "" {
      assert x + y == x;
    } else {
      AppendAssistantTwice(StartAssistant(p, messageId, Commentary), x, y);
    }
  }

  lemma AppendDraftTwice(w: Work, x: string, y: string)
    requires WorkRefs(w) && w.st.draft.Some?
    ensures AppendDraft(AppendDraft(w, x), y) == AppendDraft(w, x + y)
  {
    var d := w.st.draft.value;
    AppendTextTwice(w.p.items, d.item, x, y);
    assert d.text + x + y == d.text + (x + y);
  }

  lemma PlanTwice(w: Work, x: string, y: string)
    requires WorkRefs(w)
    ensures AppendPlan(AppendPlan(w, x), y) == AppendPlan(w, x + y)
  {
    if x == "" {
      assert x + y == y;
    } else if y == "" {
      assert x + y == x;
    } else if w.st.draft.None? && Blank(x) {
      var l := w.st.leading;
      assert l + x + y == l + (x + y);
      if !Blank(y) {
        var c :| c in y && !IsWhitespace(c);
        assert c in x + y;
        var started := StartPlan(w);
        AppendDraftTwice(started, l, x + y);
        AppendDraftTwice(started, l + x, y);
        assert AppendPlan(AppendPlan(w, x), y).p == AppendPlan(w, x + y).p;
      }
    } else {
      if w.st.draft.None? {
        var c :| c in x && !IsWhitespace(c);
        assert c in x + y;
      }
      AppendDraftTwice(FlushLeading(StartPlan(w)), x, y);
    }
  }

  lemma EmitTwice(w: Work, messageId: string, x: string, y: string)
    requires WorkRefs(w)
    ensures Emit(Emit(w, messageId, x), messageId, y) == Emit(w, messageId, x + y)
  {
    if !w.st.insidePlan {
      CommentaryTwice(w.p, messageId, x, y);
    } else if w.p.completedPlan.None? {
      PlanTwice(w, x, y);
      AppendPlanKeeps(w, x);
    }
  }

  lemma AppendPlanKeeps(w: Work, text: string)
    requires WorkRefs(w)
    ensures AppendPlan(w, text).p.completedPlan == w.p.completedPlan
    ensures AppendPlan(w, text).st.insidePlan == w.st.insidePlan
  {
  }

  /** Emission does not look at the text that is still pending. */
  lemma EmitPending(w: Work, messageId: string, text: string, pending: string)
    requires WorkRefs(w)
    ensures Emit(SetPending(w, pending), messageId, text) == SetPending(Emit(w, messageId, text), pending)
  {
  }

  // ---- Scanning in two parts ----

  function Feed(w: Work, more: string): (r: Work)
    requires WorkRefs(w)
    ensures WorkRefs(r)
  {
    SetPending(w, w.st.pending + more)
  }

  /** The state after the first complete tag, found at `i`. */
  function Crossed(w: Work, messageId: string, i: nat): (r: Work)
    requires WorkRefs(w) && Find(w.st.pending, Awaited(w.st)) == Some(i)
    ensures WorkRefs(r) && r.st.pending == w.st.pending[i + |Awaited(w.st)|..]
  {
    CrossTag(EmitRest(w, messageId, w.st.pending[..i], w.st.pending[i + |Awaited(w.st)|..]))
  }

  lemma ScanFound(w: Work, messageId: string, i: nat)
    requires WorkRefs(w) && Find(w.st.pending, Awaited(w.st)) == Some(i)
    ensures Scan(w, messageId) == Scan(Crossed(w, messageId, i), messageId)
  {
    hide PartialTagPrefixLen, EmitRest, CrossTag, WorkRefs;
  }

  lemma ScanNotFound(w: Work, messageId: string)
    requires WorkRefs(w) && Find(w.st.pending, Awaited(w.st)).None?
    ensures var end := |w.st.pending| - PartialTagPrefixLen(w.st.pending, Awaited(w.st));
      Scan(w, messageId) == EmitRest(w, messageId, w.st.pending[..end], w.st.pending[end..])
  {
  }

  /** Neither emitting nor crossing a tag changes the message or touches the taken-out stream. */
  lemma EmitRestKeeps(w: Work, messageId: string, text: string, rest: string)
    requires WorkRefs(w)
    ensures var r := EmitRest(w, messageId, text, rest);
      && r.st.insidePlan == w.st.insidePlan && r.st.messageId == w.st.messageId && r.p.stream == w.p.stream
      && CrossTag(r).st.messageId == w.st.messageId && CrossTag(r).p.stream == w.p.stream
      && CrossTag(r).st.insidePlan == !w.st.insidePlan
  {
  }

  lemma CrossTagPending(w: Work, pending: string)
    requires WorkRefs(w)
    ensures CrossTag(SetPending(w, pending)) == SetPending(CrossTag(w), pending)
  {
  }

  lemma CrossedFeeds(w: Work, messageId: string, i: nat, more: string)
    requires WorkRefs(w) && Find(w.st.pending, Awaited(w.st)) == Some(i)
    ensures Find(Feed(w, more).st.pending, Awaited(w.st)) == Some(i)
    ensures Crossed(Feed(w, more), messageId, i) == Feed(Crossed(w, messageId, i), more)
  {
    hide Emit, CrossTag, WorkRefs, Find;
    var pending, tag := w.st.pending, Awaited(w.st);
    FindIgnoresWhatFollows(pending, more, tag);
    var before, rest := pending[..i], pending[i + |tag|..];
    assert (pending + more)[..i] == before && (pending + more)[i + |tag|..] == rest + more;
    EmitPending(w, messageId, before, rest);
    EmitPending(w, messageId, before, rest + more);
    CrossTagPending(Emit(w, messageId, before), rest);
    CrossTagPending(Emit(w, messageId, before), rest + more);
  }

  /** Emitting a text and then a first part of what follows is emitting both at once. */
  lemma EmitRestTwice(w: Work, messageId: string, first: string, held: string, tail: string, n: nat, rest: string)
    requires WorkRefs(w) && n <= |tail|
    ensures EmitRest(SetPending(EmitRest(w, messageId, first, held), tail), messageId, tail[..n], rest)
         == EmitRest(SetPending(w, first + tail), messageId, (first + tail)[..|first| + n], rest)
  {
    assert (first + tail)[..|first| + n] == first + tail[..n];
    EmitTwice(SetPending(w, rest), messageId, first, tail[..n]);
    EmitPending(w, messageId, first, rest);
    EmitPending(w, messageId, first, held);
  }

  lemma HeldBackThenTag(w: Work, messageId: string, first: string, held: string, tail: string, i: nat)
    requires WorkRefs(w)
    requires Find(tail, Awaited(w.st)) == Some(i) && Find(first + tail, Awaited(w.st)) == Some(|first| + i)
    ensures Scan(SetPending(EmitRest(w, messageId, first, held), tail), messageId)
         == Scan(SetPending(w, first + tail), messageId)
  {
    hide Emit, CrossTag, Scan, WorkRefs, Find;
    var tag := Awaited(w.st);
    assert tail[i + |tag|..] == (first + tail)[|first| + i + |tag|..];
    EmitKeeps(SetPending(w, held), messageId, first);
    EmitRestTwice(w, messageId, first, held, tail, i, tail[i + |tag|..]);
    var half, all := SetPending(EmitRest(w, messageId, first, held), tail), SetPending(w, first + tail);
    ScanFound(half, messageId, i);
    ScanFound(all, messageId, |first| + i);
  }

  lemma HeldBackThenNone(w: Work, messageId: string, first: string, held: string, tail: string)
    requires WorkRefs(w)
    requires Find(tail, Awaited(w.st)).None? && Find(first + tail, Awaited(w.st)).None?
    requires PartialTagPrefixLen(tail, Awaited(w.st)) == PartialTagPrefixLen(first + tail, Awaited(w.st))
    ensures Scan(SetPending(EmitRest(w, messageId, first, held), tail), messageId)
         == Scan(SetPending(w, first + tail), messageId)
  {
    hide Emit, CrossTag, Scan, WorkRefs, Find, PartialTagPrefixLen;
    var n := |tail| - PartialTagPrefixLen(tail, Awaited(w.st));
    assert n >= 0;
    assert tail[n..] == (first + tail)[|first| + n..];
    EmitKeeps(SetPending(w, held), messageId, first);
    EmitRestTwice(w, messageId, first, held, tail, n, tail[n..]);
    ScanNotFound(SetPending(EmitRest(w, messageId, first, held), tail), messageId);
    ScanNotFound(SetPending(w, first + tail), messageId);
  }

  lemma HeldBackThenMore(w: Work, messageId: string, more: string)
    requires WorkRefs(w) && Find(w.st.pending, Awaited(w.st)).None?
    ensures Scan(Feed(Scan(w, messageId), more), messageId) == Scan(Feed(w, more), messageId)
  {
    hide *;
    var pending, tag := w.st.pending, Awaited(w.st);
    AwaitedIsNotEmpty(w.st);
    var end := |pending| - PartialTagPrefixLen(pending, tag);
    var first, held := pending[..end], pending[end..];
    assert first + (held + more) == pending + more;
    HeldBackFindsTheSame(pending, more, tag);
    HeldBackHoldsBackTheSame(pending, more, tag);
    if Find(held + more, tag).Some? {
      HeldBackThenTag(w, messageId, first, held, held + more, Find(held + more, tag).value);
    } else {
      HeldBackThenNone(w, messageId, first, held, held + more);
    }
    ScanNotFound(w, messageId);
    FeedIs(w, more);
    FeedIs(EmitRest(w, messageId, first, held), more);
  }

  lemma AwaitedIsNotEmpty(st: Stream)
    ensures |Awaited(st)| > 0
  {
  }

  lemma FeedIs(w: Work, more: string)
    requires WorkRefs(w)
    ensures Feed(w, more) == SetPending(w, w.st.pending + more)
  {
  }

  /** Scanning what is pending, then scanning again with more text, is scanning all of it at once. */
  lemma {:induction false} ScanTwice(w: Work, messageId: string, more: string)
    requires WorkRefs(w)
    ensures Scan(Feed(Scan(w, messageId), more), messageId) == Scan(Feed(w, more), messageId)
    decreases |w.st.pending|
  {
    var found := Find(w.st.pending, Awaited(w.st));
    if found.Some? {
      CrossedFeeds(w, messageId, found.value, more);
      ScanFound(w, messageId, found.value);
      ScanFound(Feed(w, more), messageId, found.value);
      ScanTwice(Crossed(w, messageId, found.value), messageId, more);
    } else {
      HeldBackThenMore(w, messageId, more);
    }
  }

  // ---- Sequences of deltas ----

  function ProjectDeltas(p: Projection, messageId: string, deltas: seq<string>): (r: Projection)
    requires AllRefs(p)
    ensures AllRefs(r)
    decreases |deltas|
  {
    if deltas == [] then p
    else ProjectDeltas(ProjectDelta(p, messageId, deltas[0]), messageId, deltas[1..])
  }

  /** What is held back between two deltas: a proper prefix of the awaited tag. */
  predicate Settled(st: Stream)
  {
    |st.pending| < |Awaited(st)| && st.pending == Awaited(st)[..|st.pending|]
  }

  lemma {:induction false} ScanSettles(w: Work, messageId: string)
    requires WorkRefs(w)
    ensures Settled(Scan(w, messageId).st)
    ensures Scan(w, messageId).st.messageId == w.st.messageId && Scan(w, messageId).p.stream == w.p.stream
    decreases |w.st.pending|
  {
    hide Emit, EmitRest, CrossTag, WorkRefs, Scan, Find, PartialTagPrefixLen;
    var tag := Awaited(w.st);
    var found := Find(w.st.pending, tag);
    var end := |w.st.pending| - PartialTagPrefixLen(w.st.pending, tag);
    if found.Some? {
      var i := found.value;
      EmitRestKeeps(w, messageId, w.st.pending[..i], w.st.pending[i + |tag|..]);
      ScanFound(w, messageId, i);
      ScanSettles(Crossed(w, messageId, i), messageId);
    } else {
      EmitRestKeeps(w, messageId, w.st.pending[..end], w.st.pending[end..]);
      ScanNotFound(w, messageId);
    }
  }

  lemma SettledScanDoesNothing(w: Work, messageId: string)
    requires WorkRefs(w) && Settled(w.st)
    ensures Scan(w, messageId) == w
  {
    var tag := Awaited(w.st);
    PartialIsUnique(w.st.pending, tag, |w.st.pending|);
    assert w.st.pending[..0] == "" && w.st.pending[0..] == w.st.pending;
  }

  function TwoDeltas(p: Projection, messageId: string, x: string, y: string): (r: Projection)
    requires AllRefs(p)
    ensures AllRefs(r)
  {
    ProjectDelta(ProjectDelta(p, messageId, x), messageId, y)
  }

  lemma DeltaTwice(p: Projection, messageId: string, x: string, y: string)
    requires AllRefs(p)
    ensures TwoDeltas(p, messageId, x, y) == ProjectDelta(p, messageId, x + y)
  {
    hide Scan, WorkRefs;
    var w := Take(p, messageId);
    ScanTwice(Feed(w, x), messageId, y);
    ScanSettles(Feed(w, x), messageId);
    assert w.st.pending + x + y == w.st.pending + (x + y);
  }

  /** For every way of cutting a text into one or more deltas, the projection after the last delta is
      the projection after one delta holding the whole text. */
  lemma {:induction false} DeltasAreOneDelta(p: Projection, messageId: string, deltas: seq<string>)
    requires AllRefs(p) && deltas != []
    ensures ProjectDeltas(p, messageId, deltas) == ProjectDelta(p, messageId, Concat(deltas))
    decreases |deltas|
  {
    hide ProjectDelta, AllRefs;
    var x, later := deltas[0], deltas[1..];
    if |deltas| == 1 {
      assert later == [];
      assert Concat(deltas) == x;
    } else {
      DeltasAreOneDelta(ProjectDelta(p, messageId, x), messageId, later);
      DeltaTwice(p, messageId, x, Concat(later));
    }
  }

  /** The projection after the deltas of a message and its end. */
  function AfterMessage(p: Projection, messageId: string, deltas: seq<string>): (r: Projection)
    requires AllRefs(p)
    ensures AllRefs(r)
  {
    FinishStream(ProjectDeltas(p, messageId, deltas))
  }

  lemma AfterOneDelta(p: Projection, messageId: string, text: string)
    requires AllRefs(p)
    ensures AfterMessage(p, messageId, [text]) == FinishStream(ProjectDelta(p, messageId, text))
  {
    hide FinishStream, ProjectDelta, AllRefs;
    var next := ProjectDelta(p, messageId, text);
    assert [text][1..] == [];
    assert ProjectDeltas(next, messageId, []) == next;
  }

  /** A delta that says nothing is not noticed at the end. */
  lemma EmptyDelta(p: Projection, messageId: string)
    requires AllRefs(p) && (p.stream.Some? ==> Settled(p.stream.value))
    ensures FinishStream(ProjectDelta(p, messageId, "")) == FinishStream(p)
  {
    hide Scan, PartialTagPrefixLen;
    var w := Take(p, messageId);
    assert w.st.pending + "" == w.st.pending;
    SettledScanDoesNothing(w, messageId);
    if p.stream.None? {
      PartialIsUnique("", OPEN, 0);
      AssistantKeepsTheRest(w.p, messageId, "", Commentary);
    }
  }

  /** At the end of the message the cut is invisible even when no delta came at all. */
  lemma FinishForgetsTheCut(p: Projection, messageId: string, deltas: seq<string>)
    requires AllRefs(p) && (p.stream.Some? ==> Settled(p.stream.value))
    ensures AfterMessage(p, messageId, deltas) == AfterMessage(p, messageId, [Concat(deltas)])
  {
    hide FinishStream, ProjectDelta, AllRefs, Settled;
    AfterOneDelta(p, messageId, Concat(deltas));
    if deltas == [] {
      EmptyDelta(p, messageId);
    } else {
      DeltasAreOneDelta(p, messageId, deltas);
    }
  }
}
