/** What every Plan-mode event sequence keeps: the life of plan items, commentary items and the one
    completed plan. */
module PlanLifecycle {
  import opened Text
  import opened PlanStream
  import opened PlanStreamChunks
  import opened PlanReference
  import opened ProjectorEvents

  /** An item still in progress is one the projector holds. */
  predicate IsHeld(w: Work, i: nat)
  {
    || (w.p.openAssistant.Some? && w.p.openAssistant.value.item == i)
    || (w.p.openReasoning.Some? && w.p.openReasoning.value.item == i)
    || (w.st.draft.Some? && w.st.draft.value.item == i)
  }

  predicate ItemsOk(w: Work)
  {
    && (forall i :: 0 <= i < |w.p.items| && w.p.items[i].status == InProgress ==> IsHeld(w, i))
    && (forall i :: 0 <= i < |w.p.items| && w.p.items[i].status == Completed ==>
          && (w.p.items[i].kind == AssistantItem ==> w.p.items[i].phase == Commentary)
          && (w.p.items[i].kind == PlanItem ==>
                && w.p.completedPlan == Some(TextRef(i, w.p.items[i].text)) && !Blank(w.p.items[i].text)))
    && (w.p.openAssistant.Some? ==> w.p.openAssistant.value.phase == Commentary)
    && (w.p.completedPlan.Some? ==>
          var i := w.p.completedPlan.value.item;
          i < |w.p.items| && w.p.items[i].kind == PlanItem && w.p.items[i].status == Completed)
  }

  predicate StreamOk(w: Work)
  {
    && Blank(w.st.leading)
    && (w.st.insidePlan ==> w.p.openAssistant.None?)
    && (w.st.draft.Some? ==>
          && w.st.insidePlan && w.p.completedPlan.None?
          && !Blank(w.st.draft.value.text) && w.st.leading == "")
  }

  predicate WorkOk(w: Work)
  {
    WorkRefs(w) && ItemsOk(w) && StreamOk(w)
  }

  predicate ProjectionOk(p: Projection)
  {
    && AllRefs(p)
    && (if p.stream.Some? then WorkOk(Work(p, p.stream.value)) && Settled(p.stream.value)
        else WorkOk(Work(p, Fresh(""))))
  }

  // ---- Each operation keeps it ----

  lemma CompleteAssistantOk(w: Work, inferred: Phase)
    requires WorkOk(w) && inferred != Unknown
    ensures WorkOk(w.(p := CompleteAssistant(w.p, inferred)))
  {
  }

  lemma CommentaryOk(w: Work, messageId: string, text: string)
    requires WorkOk(w) && !w.st.insidePlan
    ensures WorkOk(w.(p := AppendCommentary(w.p, messageId, text)))
  {
    if text != "" {
      var c := w.(p := CompleteAssistant(w.p, Commentary));
      CompleteAssistantOk(w, Commentary);
      var s := w.(p := StartAssistant(w.p, messageId, Commentary));
      assert WorkOk(s);
    }
  }

  lemma PlanTextOk(w: Work, text: string)
    requires WorkOk(w) && w.st.insidePlan && w.p.completedPlan.None?
    ensures WorkOk(AppendPlan(w, text))
  {
    if w.st.draft.None? {
      DraftHoldsBody(w, text);
      var body := w.st.leading + text;
      BlankIffBothBlank(w.st.leading, text);
    } else {
      BlankIffBothBlank(w.st.draft.value.text, text);
    }
  }

  lemma EmitOk(w: Work, messageId: string, text: string)
    requires WorkOk(w)
    ensures WorkOk(Emit(w, messageId, text))
  {
    if !w.st.insidePlan {
      CommentaryOk(w, messageId, text);
    } else if w.p.completedPlan.None? {
      PlanTextOk(w, text);
    }
  }

  lemma CrossTagOk(w: Work)
    requires WorkOk(w)
    ensures WorkOk(CrossTag(w))
  {
    if !w.st.insidePlan {
      CompleteAssistantOk(w, Commentary);
    }
  }

  lemma EmitRestOk(w: Work, messageId: string, text: string, rest: string)
    requires WorkOk(w)
    ensures WorkOk(EmitRest(w, messageId, text, rest))
  {
    var v := SetPending(w, rest);
    assert forall i: nat :: IsHeld(v, i) == IsHeld(w, i);
    EmitOk(v, messageId, text);
  }

  lemma CrossedOk(w: Work, messageId: string, i: nat)
    requires WorkOk(w) && Find(w.st.pending, Awaited(w.st)) == Some(i)
    ensures WorkOk(Crossed(w, messageId, i))
  {
    hide Emit, EmitRest, CrossTag, ItemsOk, StreamOk, Find, Awaited, WorkRefs;
    var rest := w.st.pending[i + |Awaited(w.st)|..];
    EmitRestOk(w, messageId, w.st.pending[..i], rest);
    CrossTagOk(EmitRest(w, messageId, w.st.pending[..i], rest));
  }

  lemma {:induction false} ScanOk(w: Work, messageId: string)
    requires WorkOk(w)
    ensures WorkOk(Scan(w, messageId))
    decreases |w.st.pending|
  {
    hide Emit, EmitRest, CrossTag, ItemsOk, StreamOk, Find, Awaited, PartialTagPrefixLen, WorkRefs, Crossed, Scan;
    var tag := Awaited(w.st);
    if Find(w.st.pending, tag).Some? {
      var i := Find(w.st.pending, tag).value;
      CrossedOk(w, messageId, i);
      ScanFound(w, messageId, i);
      ScanOk(Crossed(w, messageId, i), messageId);
    } else {
      var end := |w.st.pending| - PartialTagPrefixLen(w.st.pending, tag);
      EmitRestOk(w, messageId, w.st.pending[..end], w.st.pending[end..]);
      ScanNotFound(w, messageId);
    }
  }

  lemma StreamFieldIsIrrelevant(w: Work, stream: Option<Stream>, st: Stream)
    requires WorkOk(w)
    ensures WorkOk(w.(p := w.p.(stream := stream)))
    ensures w.st.draft.None? ==> WorkOk(Work(w.p, Fresh(st.messageId)))
  {
    var v, u := w.(p := w.p.(stream := stream)), Work(w.p, Fresh(st.messageId));
    assert forall i: nat :: IsHeld(v, i) == IsHeld(w, i);
    assert w.st.draft.None? ==> forall i: nat :: IsHeld(u, i) == IsHeld(w, i);
  }

  /** A draft that is not closed becomes a completed commentary item. */
  lemma UnfinishedDraftOk(w: Work)
    requires WorkOk(w) && w.st.draft.Some?
    ensures var d := w.st.draft.value;
      WorkOk(Work(w.p.(items := Complete(w.p.items, d.item, AssistantItem, d.text, Commentary)), Fresh("")))
  {
    var d := w.st.draft.value;
    var done := Work(w.p.(items := Complete(w.p.items, d.item, AssistantItem, d.text, Commentary)), Fresh(""));
    assert forall i: nat :: i != d.item ==> IsHeld(done, i) == IsHeld(w, i);
  }

  lemma FinishOk(p: Projection)
    requires ProjectionOk(p)
    ensures ProjectionOk(FinishStream(p)) && FinishStream(p).stream.None?
    ensures forall i :: 0 <= i < |FinishStream(p).items| && FinishStream(p).items[i].kind == PlanItem
              ==> FinishStream(p).items[i].status == Completed
  {
    hide PartialTagPrefixLen, Blank;
    if p.stream.Some? {
      var w := Work(p.(stream := None), p.stream.value);
      StreamFieldIsIrrelevant(Work(p, p.stream.value), None, p.stream.value);
      var tag := Awaited(w.st);
      PartialIsUnique(w.st.pending, tag, |w.st.pending|);
      assert w.st.pending[..0] == "";
      if !w.st.insidePlan || w.p.completedPlan.Some? {
        StreamFieldIsIrrelevant(w, None, w.st);
      } else if w.st.draft.Some? {
        UnfinishedDraftOk(w);
      } else {
        StreamFieldIsIrrelevant(w, None, Fresh(""));
        CommentaryOk(Work(w.p, Fresh("")), w.st.messageId, w.st.leading);
      }
      assert WorkOk(Work(FinishStream(p), Fresh("")));
    }
  }

  lemma DeltaOk(p: Projection, messageId: string, delta: string)
    requires ProjectionOk(p)
    ensures ProjectionOk(ProjectDelta(p, messageId, delta))
  {
    var w := Take(p, messageId);
    var from := Work(p, if p.stream.Some? then p.stream.value else Fresh(""));
    StreamFieldIsIrrelevant(from, None, Fresh(messageId));
    StreamFieldIsIrrelevant(from.(p := p.(stream := None)), None, Fresh(messageId));
    assert WorkOk(w);
    var fed := Feed(w, delta);
    assert forall i: nat :: IsHeld(fed, i) == IsHeld(w, i);
    ScanOk(fed, messageId);
    ScanSettles(fed, messageId);
    StreamFieldIsIrrelevant(Scan(fed, messageId), Some(Scan(fed, messageId).st), Fresh(""));
  }

  lemma FreshStreamOk(p: Projection, messageId: string)
    requires ProjectionOk(p) && p.stream.None?
    ensures ProjectionOk(p.(stream := Some(Fresh(messageId))))
  {
    StreamFieldIsIrrelevant(Work(p, Fresh("")), Some(Fresh(messageId)), Fresh(messageId));
    var q := p.(stream := Some(Fresh(messageId)));
    StreamFieldIsIrrelevant(Work(q, Fresh("")), q.stream, Fresh(messageId));
  }

  /** Completing the open assistant item, or nothing being open, keeps a projection without stream. */
  lemma CompleteOk(p: Projection, inferred: Phase)
    requires ProjectionOk(p) && p.stream.None? && inferred != Unknown
    ensures ProjectionOk(CompleteAssistant(p, inferred))
  {
    CompleteAssistantOk(Work(p, Fresh("")), inferred);
  }

  lemma ReasoningOk(p: Projection, delta: string)
    requires ProjectionOk(p)
    ensures ProjectionOk(AppendReasoning(p, delta))
  {
    var st := if p.stream.Some? then p.stream.value else Fresh("");
    var r := AppendReasoning(p, delta);
    assert forall i: nat :: IsHeld(Work(p, st), i) ==> IsHeld(Work(r, st), i);
  }

  lemma ReasoningDoneOk(p: Projection)
    requires ProjectionOk(p) && p.stream.None?
    ensures ProjectionOk(CompleteReasoning(p.(sawToolCall := false)))
  {
    var w, r := Work(p, Fresh("")), CompleteReasoning(p.(sawToolCall := false));
    if p.openReasoning.Some? {
      var o := p.openReasoning.value;
      assert forall i: nat :: i != o.item && IsHeld(w, i) ==> IsHeld(Work(r, Fresh("")), i);
    } else {
      assert forall i: nat :: IsHeld(w, i) ==> IsHeld(Work(r, Fresh("")), i);
    }
  }

  lemma StepOk(p: Projection, e: Event)
    requires ProjectionOk(p)
    ensures ProjectionOk(Step(p, PlanMode, e))
  {
    hide WorkOk, FinishStream, ProjectDelta, CompleteAssistant, AppendReasoning, CompleteReasoning, DraftRef, Held;
    match e
    case MessageStarted(messageId, _) =>
      FinishOk(p);
      FreshStreamOk(FinishStream(p), messageId);
    case MessageDelta(messageId, delta) => DeltaOk(p, messageId, delta);
    case MessageCompleted(_) =>
      FinishOk(p);
      CompleteOk(FinishStream(p), Commentary);
    case TextDelta(delta) => DeltaOk(p, LEGACY_MESSAGE, delta);
    case ReasoningDelta(delta) => ReasoningOk(p, delta);
    case ToolCall => ToolCallOk(p);
    case Finished(requestedTools) =>
      FinishOk(p);
      var q := FinishStream(p);
      var phase := if q.sawToolCall || requestedTools then Commentary else FinalAnswer;
      CompleteOk(q, phase);
      AssistantKeepsTheRest(q, "", "", phase);
      ReasoningDoneOk(CompleteAssistant(q, phase));
  }

  lemma ToolCallOk(p: Projection)
    requires ProjectionOk(p)
    ensures ProjectionOk(p.(sawToolCall := true))
  {
    var st := if p.stream.Some? then p.stream.value else Fresh("");
    var q := p.(sawToolCall := true);
    assert forall i: nat :: IsHeld(Work(p, st), i) == IsHeld(Work(q, st), i);
  }

  lemma {:induction false} RunOk(p: Projection, events: seq<Event>)
    requires ProjectionOk(p)
    ensures ProjectionOk(Run(p, PlanMode, events))
    decreases |events|
  {
    hide WorkOk, Step, DraftRef, Refs;
    if events != [] {
      StepOk(p, events[0]);
      RunOk(Step(p, PlanMode, events[0]), events[1..]);
    }
  }

  /** The life of plan and commentary items, for every Plan-mode event sequence of a run. */
  lemma {:induction false} Lifecycle(events: seq<Event>)
    ensures var p := Run(EMPTY, PlanMode, events);
      // a started plan item holds visible text, and no commentary item is open beside it
      && (p.stream.Some? && p.stream.value.draft.Some? ==>
            && !Blank(p.stream.value.draft.value.text)
            && p.openAssistant.None? && p.completedPlan.None? && p.stream.value.insidePlan)
      // there is at most one completed plan item, it is the recorded plan, and it holds visible text
      && (forall i :: 0 <= i < |p.items| && p.items[i].kind == PlanItem && p.items[i].status == Completed
            ==> p.completedPlan == Some(TextRef(i, p.items[i].text)) && !Blank(p.items[i].text))
      // a plan item in progress is the one being written
      && (forall i :: 0 <= i < |p.items| && p.items[i].kind == PlanItem && p.items[i].status == InProgress
            ==> p.stream.Some? && p.stream.value.draft == Some(TextRef(i, p.items[i].text)))
      // no assistant item of a Plan-mode run is ever a final answer, whatever the model announced
      && (forall i :: 0 <= i < |p.items| && p.items[i].kind == AssistantItem && p.items[i].status == Completed
            ==> p.items[i].phase == Commentary)
  {
    hide Run;
    RunOk(EMPTY, events);
    var p := Run(EMPTY, PlanMode, events);
    forall i | 0 <= i < |p.items| && p.items[i].kind == PlanItem && p.items[i].status == InProgress
      ensures p.stream.Some? && p.stream.value.draft == Some(TextRef(i, p.items[i].text))
    {
      assert IsHeld(Work(p, if p.stream.Some? then p.stream.value else Fresh("")), i);
    }
  }

  /** No stream and no assistant item is open, and every plan and assistant item is completed. */
  predicate NothingOpen(p: Projection)
  {
    && p.stream.None? && p.openAssistant.None?
    && forall i :: 0 <= i < |p.items| && p.items[i].kind != ReasoningItem ==> p.items[i].status == Completed
  }

  /** After the message is finished no plan item and no assistant item is left in progress. */
  lemma {:induction false} NoPlanLeftOpen(events: seq<Event>, last: Event)
    requires last.MessageCompleted? || last.Finished?
    ensures NothingOpen(Run(EMPTY, PlanMode, events + [last]))
  {
    hide Run, Step;
    RunOk(EMPTY, events);
    RunOk(EMPTY, events + [last]);
    hide *;
    RunSnoc(EMPTY, PlanMode, events, last);
    LastEventCloses(Run(EMPTY, PlanMode, events), last);
    OnlyReasoningIsOpen(Run(EMPTY, PlanMode, events + [last]));
  }

  lemma LastEventCloses(p: Projection, last: Event)
    requires ProjectionOk(p) && (last.MessageCompleted? || last.Finished?)
    ensures var r := Step(p, PlanMode, last); r.stream.None? && r.openAssistant.None?
  {
    hide FinishStream, ProjectionOk, DraftRef;
    FinishOk(p);
  }

  /** Whatever is in progress is held by the projector, and by kind. */
  lemma OnlyReasoningIsOpen(p: Projection)
    requires ProjectionOk(p) && p.stream.None? && p.openAssistant.None?
    ensures NothingOpen(p)
  {
    forall i | 0 <= i < |p.items| && p.items[i].status == InProgress ensures p.items[i].kind == ReasoningItem {
      assert IsHeld(Work(p, Fresh("")), i);
    }
  }

  // ---- The completed plan is final ----

  lemma {:induction false} ScanKeepsPlan(w: Work, messageId: string)
    requires WorkRefs(w) && w.p.completedPlan.Some?
    ensures Scan(w, messageId).p.completedPlan == w.p.completedPlan
    decreases |w.st.pending|
  {
    hide Scan, AppendPlan, CompleteAssistant, AppendCommentary;
    var tag := Awaited(w.st);
    if Find(w.st.pending, tag).Some? {
      var i := Find(w.st.pending, tag).value;
      ScanFound(w, messageId, i);
      AssistantKeepsTheRest(w.p, messageId, w.st.pending[..i], Commentary);
      AssistantKeepsTheRest(Emit(w, messageId, w.st.pending[..i]).p, messageId, "", Commentary);
      EmitPending(w, messageId, w.st.pending[..i], w.st.pending[i + |tag|..]);
      ScanKeepsPlan(Crossed(w, messageId, i), messageId);
    } else {
      var end := |w.st.pending| - PartialTagPrefixLen(w.st.pending, tag);
      AssistantKeepsTheRest(w.p, messageId, w.st.pending[..end], Commentary);
      ScanNotFound(w, messageId);
    }
  }

  lemma SmallStepsKeepPlan(p: Projection, e: Event)
    requires AllRefs(p)
    ensures FinishStream(p).completedPlan == p.completedPlan
    ensures e.ReasoningDelta? ==> AppendReasoning(p, e.delta).completedPlan == p.completedPlan
    ensures CompleteReasoning(p).completedPlan == p.completedPlan
    ensures e.MessageDelta? ==> AssistantDelta(p, e.messageId, e.delta).completedPlan == p.completedPlan
    ensures e.TextDelta? ==> AssistantDelta(p, LEGACY_MESSAGE, e.delta).completedPlan == p.completedPlan
    ensures e.MessageStarted? ==> StartAssistant(p, e.messageId, e.phase).completedPlan == p.completedPlan
    ensures forall phase :: CompleteAssistant(p, phase).completedPlan == p.completedPlan
  {
    if p.stream.Some? {
      FinishKeepsPlan(Work(p.(stream := None), p.stream.value));
    }
  }

  lemma CompleteKeepsRefs(p: Projection, phase: Phase)
    requires AllRefs(p)
    ensures AllRefs(CompleteAssistant(p, phase).(sawToolCall := false))
  {
  }

  lemma FinishKeepsPlan(w: Work)
    requires WorkRefs(w)
    ensures FinishWork(w).completedPlan == w.p.completedPlan
  {
    hide AppendPlan, AppendCommentary, Held;
    var text := w.st.pending[..|w.st.pending| - PartialTagPrefixLen(w.st.pending, Awaited(w.st))];
    AssistantKeepsTheRest(w.p, w.st.messageId, text, Commentary);
    AppendPlanKeeps(w, text);
    var e := AppendPlan(w, text);
    AssistantKeepsTheRest(e.p, e.st.messageId, e.st.leading, Commentary);
  }

  lemma StepKeepsPlan(p: Projection, mode: Mode, e: Event)
    requires AllRefs(p) && p.completedPlan.Some?
    ensures Step(p, mode, e).completedPlan == p.completedPlan
  {
    hide Scan, FinishWork, AppendReasoning, CompleteReasoning, AssistantDelta, StartAssistant, CompleteAssistant;
    SmallStepsKeepPlan(p, e);
    if e.Finished? {
      var q := if mode == PlanMode then FinishStream(p) else p;
      var phase := if q.sawToolCall || e.requestedTools then Commentary else FinalAnswer;
      SmallStepsKeepPlan(q, e);
      CompleteKeepsRefs(q, phase);
      SmallStepsKeepPlan(CompleteAssistant(q, phase).(sawToolCall := false), e);
    }
    if e.MessageCompleted? {
      SmallStepsKeepPlan(FinishStream(p), e);
    }
    if mode == PlanMode && (e.MessageDelta? || e.TextDelta?) {
      var messageId := if e.MessageDelta? then e.messageId else LEGACY_MESSAGE;
      var w := Take(p, messageId);
      ScanKeepsPlan(SetPending(w, w.st.pending + e.delta), messageId);
    }
  }

  /** The completed plan is set at most once in a run and never changed. */
  lemma {:induction false} CompletedPlanIsFinal(p: Projection, mode: Mode, events: seq<Event>)
    requires AllRefs(p) && p.completedPlan.Some?
    ensures Run(p, mode, events).completedPlan == p.completedPlan
    decreases |events|
  {
    hide Step, AllRefs;
    if events != [] {
      StepKeepsPlan(p, mode, events[0]);
      CompletedPlanIsFinal(Step(p, mode, events[0]), mode, events[1..]);
    }
  }

  // ---- A whole message ----

  function DeltaEvents(messageId: string, deltas: seq<string>): (events: seq<Event>)
    ensures |events| == |deltas|
  {
    if deltas == [] then [] else [MessageDelta(messageId, deltas[0])] + DeltaEvents(messageId, deltas[1..])
  }

  /** The projection after the delta events of a message. */
  function Delivered(p: Projection, messageId: string, deltas: seq<string>): Projection
    requires AllRefs(p)
  {
    Run(p, PlanMode, DeltaEvents(messageId, deltas))
  }

  lemma {:induction false} RunDeltas(p: Projection, messageId: string, deltas: seq<string>)
    requires AllRefs(p)
    ensures Delivered(p, messageId, deltas) == ProjectDeltas(p, messageId, deltas)
    decreases |deltas|
  {
    hide ProjectDelta, AllRefs;
    if deltas != [] {
      var events := DeltaEvents(messageId, deltas);
      assert events[0] == MessageDelta(messageId, deltas[0]) && events[1..] == DeltaEvents(messageId, deltas[1..]);
      RunDeltas(ProjectDelta(p, messageId, deltas[0]), messageId, deltas[1..]);
    }
  }

  lemma CompletionKeepsEntries(p: Projection, messageId: string)
    requires AllRefs(p)
    ensures var c := CompleteAssistant(p, Commentary);
      View(c, messageId).entries == View(p, messageId).entries && View(c, messageId).plan == View(p, messageId).plan
  {
    if p.openAssistant.Some? {
      var i := p.openAssistant.value.item;
      EntriesOf(p.items, CompleteAssistant(p, Commentary).items[i], i);
    }
  }

  /** A Plan-mode message announced, delivered in any deltas and completed leaves the transcript that
      the reference makes of its whole text. */
  lemma WholeMessage(p: Projection, messageId: string, phase: Phase, deltas: seq<string>)
    requires AllRefs(p)
    ensures var events := [MessageStarted(messageId, phase)] + DeltaEvents(messageId, deltas);
      var out := View(Run(p, PlanMode, events + [MessageCompleted(messageId)]), messageId);
      var ref := Lay(View(FinishStream(p), messageId), Split(Concat(deltas), false), "");
      out.entries == ref.entries && out.plan == ref.plan
  {
    hide FinishStream, ProjectDelta, ProjectDeltas, View, Lay, Split, Concat, Held, CompleteAssistant;
    var first, events := MessageStarted(messageId, phase), DeltaEvents(messageId, deltas);
    var started := FinishStream(p).(stream := Some(Fresh(messageId)));
    assert Step(p, PlanMode, first) == started;
    assert ([first] + events)[1..] == events;
    RunDeltas(started, messageId, deltas);
    RunSnoc(p, PlanMode, [first] + events, MessageCompleted(messageId));
    StreamEqualsBatch(started, messageId, deltas);
    ViewIgnoresStream(FinishStream(p), messageId);
    CompletionKeepsEntries(AfterMessage(started, messageId, deltas), messageId);
  }

  lemma ViewIgnoresStream(p: Projection, messageId: string)
    requires AllRefs(p)
    ensures View(p.(stream := Some(Fresh(messageId))), messageId) == View(p, messageId)
  {
  }
}
