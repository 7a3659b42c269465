/** What every run of model events, in either behaviour mode, leaves alone: completed items, and the reasoning of
    the model, which is kept apart from its messages. */
module ItemHistory {
  import opened Text
  import opened PlanStream
  import opened PlanStreamChunks
  import opened ProjectorEvents

  /** Completed items and reasoning are as before. */
  predicate Kept(p: Projection, r: Projection)
  {
    && |p.items| <= |r.items|
    && (forall i :: 0 <= i < |p.items| && (p.items[i].status == Completed || p.items[i].kind == ReasoningItem) ==>
          r.items[i] == p.items[i])
    && r.openReasoning == p.openReasoning && r.sawToolCall == p.sawToolCall
  }

  lemma EverythingKept(p: Projection)
    ensures Kept(p, p) && Kept(p.(stream := None), p) && Kept(p, p.(stream := None))
  {
  }

  lemma KeptTwice(p: Projection, q: Projection, r: Projection)
    requires Kept(p, q) && Kept(q, r)
    ensures Kept(p, r)
  {
  }

  lemma StartKeeps(p: Projection, messageId: string, phase: Phase)
    requires Refs(p)
    ensures Kept(p, CompleteAssistant(p, phase))
    ensures Kept(p, StartAssistant(p, messageId, phase))
  {
  }

  lemma MoreTextKeeps(p: Projection, text: string)
    requires Refs(p) && p.openAssistant.Some?
    ensures Kept(p, AppendAssistant(p, text))
  {
  }

  lemma SayingKeeps(p: Projection, messageId: string, phase: Phase, text: string)
    requires Refs(p)
    ensures Kept(p, AppendAssistant(StartAssistant(p, messageId, phase), text))
    ensures Kept(p, AppendCommentary(p, messageId, text))
  {
    hide Kept, StartAssistant, AppendAssistant, Refs;
    EverythingKept(p);
    var s, c := StartAssistant(p, messageId, phase), StartAssistant(p, messageId, Commentary);
    StartKeeps(p, messageId, phase);
    StartKeeps(p, messageId, Commentary);
    MoreTextKeeps(s, text);
    MoreTextKeeps(c, text);
    KeptTwice(p, s, AppendAssistant(s, text));
    KeptTwice(p, c, AppendAssistant(c, text));
  }

  lemma PlanTextKeeps(w: Work, text: string)
    requires WorkRefs(w)
    ensures Kept(w.p, AppendPlan(w, text).p)
  {
    var s := StartPlan(w);
    var f := FlushLeading(s);
    assert Kept(w.p, s.p) && Kept(s.p, f.p) && Kept(f.p, AppendDraft(f, text).p);
  }

  lemma EmitRestKeepsItems(w: Work, messageId: string, text: string, rest: string)
    requires WorkRefs(w)
    ensures Kept(w.p, EmitRest(w, messageId, text, rest).p)
  {
    hide AppendCommentary, AppendPlan, Kept;
    EverythingKept(w.p);
    SayingKeeps(w.p, messageId, Commentary, text);
    PlanTextKeeps(SetPending(w, rest), text);
  }

  lemma CrossTagKeeps(w: Work)
    requires WorkRefs(w)
    ensures Kept(w.p, CrossTag(w).p)
  {
  }

  lemma {:induction false} ScanKeeps(w: Work, messageId: string)
    requires WorkRefs(w)
    ensures Kept(w.p, Scan(w, messageId).p)
    decreases |w.st.pending|
  {
    hide Scan, Kept, EmitRest, CrossTag, Find, PartialTagPrefixLen, WorkRefs;
    var tag := Awaited(w.st);
    if Find(w.st.pending, tag).Some? {
      var i := Find(w.st.pending, tag).value;
      var e := EmitRest(w, messageId, w.st.pending[..i], w.st.pending[i + |tag|..]);
      ScanFound(w, messageId, i);
      EmitRestKeepsItems(w, messageId, w.st.pending[..i], w.st.pending[i + |tag|..]);
      CrossTagKeeps(e);
      KeptTwice(w.p, e.p, CrossTag(e).p);
      ScanKeeps(Crossed(w, messageId, i), messageId);
      KeptTwice(w.p, CrossTag(e).p, Scan(w, messageId).p);
    } else {
      var end := |w.st.pending| - PartialTagPrefixLen(w.st.pending, tag);
      ScanNotFound(w, messageId);
      EmitRestKeepsItems(w, messageId, w.st.pending[..end], w.st.pending[end..]);
    }
  }

  lemma FinishKeeps(w: Work)
    requires WorkRefs(w)
    ensures Kept(w.p, FinishWork(w))
  {
    hide Kept, AppendPlan, AppendCommentary, PartialTagPrefixLen, Refs, Complete;
    var text := w.st.pending[..|w.st.pending| - PartialTagPrefixLen(w.st.pending, Awaited(w.st))];
    var e := AppendPlan(w, text);
    EverythingKept(w.p);
    SayingKeeps(w.p, w.st.messageId, Commentary, text);
    PlanTextKeeps(w, text);
    SayingKeeps(e.p, e.st.messageId, Commentary, e.st.leading);
    KeptTwice(w.p, e.p, AppendCommentary(e.p, e.st.messageId, e.st.leading));
    if e.st.draft.Some? {
      DroppedDraftKeeps(e);
      KeptTwice(w.p, e.p, WithoutDraft(e));
    }
  }

  /** The draft turned into completed commentary. */
  function WithoutDraft(w: Work): Projection
    requires WorkRefs(w) && w.st.draft.Some?
  {
    var d := w.st.draft.value;
    w.p.(items := Complete(w.p.items, d.item, AssistantItem, d.text, Commentary))
  }

  lemma DroppedDraftKeeps(w: Work)
    requires WorkRefs(w) && w.st.draft.Some?
    ensures Kept(w.p, WithoutDraft(w))
  {
  }

  /** What a delta or the end of a message in Plan mode leaves alone. */
  lemma StreamKeeps(p: Projection, messageId: string, delta: string)
    requires AllRefs(p)
    ensures Kept(p, FinishStream(p))
    ensures Kept(p, ProjectDelta(p, messageId, delta))
  {
    hide Kept, Scan, FinishWork, Refs, DraftRef;
    EverythingKept(p);
    var w := Take(p, messageId);
    var fed := SetPending(w, w.st.pending + delta);
    var s := Scan(fed, messageId);
    ScanKeeps(fed, messageId);
    KeptTwice(p, w.p, s.p);
    KeptButStream(s.p, Some(s.st));
    KeptTwice(p, s.p, Put(s));
    if p.stream.Some? {
      var f := FinishWork(w);
      FinishKeeps(w);
      KeptTwice(p, w.p, f);
      KeptButStream(f, None);
      KeptTwice(p, f, f.(stream := None));
    }
  }

  lemma KeptButStream(p: Projection, stream: Option<Stream>)
    ensures Kept(p, p.(stream := stream))
  {
  }

  // ---- Text without message ids ----

  /** The same text as a delta of the one message that such text belongs to. */
  function WithMessageId(e: Event): Event
  {
    if e.TextDelta? then MessageDelta("legacy-message-0", e.delta) else e
  }

  function WithMessageIds(events: seq<Event>): seq<Event>
  {
    if events == [] then [] else [WithMessageId(events[0])] + WithMessageIds(events[1..])
  }

  lemma StepWithMessageId(p: Projection, mode: Mode, e: Event)
    requires AllRefs(p)
    ensures Step(p, mode, e) == Step(p, mode, WithMessageId(e))
  {
  }

  /** In either mode text that comes without a message id is text of one and the same message. */
  lemma {:induction false} LegacyTextIsAMessage(p: Projection, mode: Mode, events: seq<Event>)
    requires AllRefs(p)
    ensures Run(p, mode, events) == Run(p, mode, WithMessageIds(events))
    decreases |events|
  {
    hide Step, AllRefs, WithMessageId;
    if events != [] {
      StepWithMessageId(p, mode, events[0]);
      LegacyTextIsAMessage(Step(p, mode, events[0]), mode, events[1..]);
      assert WithMessageIds(events)[1..] == WithMessageIds(events[1..]);
    }
  }

  // ---- Event by event ----

  /** Completed items are as before. */
  predicate CompletedKept(p: Projection, r: Projection)
  {
    && |p.items| <= |r.items|
    && forall i :: 0 <= i < |p.items| && p.items[i].status == Completed ==> r.items[i] == p.items[i]
  }

  /** The model's reasoning since it last finished, if it reasoned. */
  function Thought(events: seq<Event>): Option<string>
  {
    if events == [] then None else
    var before, last := Thought(events[..|events| - 1]), events[|events| - 1];
    match last
    case ReasoningDelta(delta) => Some((if before.Some? then before.value else "") + delta)
    case Finished(_) => None
    case _ => before
  }

  function OpenThought(p: Projection): Option<string>
  {
    if p.openReasoning.Some? then Some(p.openReasoning.value.text) else None
  }

  lemma ReasoningStep(p: Projection, delta: string)
    requires AllRefs(p)
    ensures var r, before := AppendReasoning(p, delta), OpenThought(p);
      && OpenThought(r) == Some((if before.Some? then before.value else "") + delta)
      && CompletedKept(p, r)
  {
  }

  lemma ReasoningEnds(p: Projection)
    requires AllRefs(p)
    ensures var r, thought := CompleteReasoning(p), OpenThought(p);
      && r.openReasoning.None? && CompletedKept(p, r)
      && (thought.Some? ==>
            r.items[p.openReasoning.value.item] == Item(ReasoningItem, Completed, thought.value, Unknown))
  {
  }

  /** Every event but reasoning and finishing. */
  lemma TalkKeeps(p: Projection, mode: Mode, e: Event)
    requires AllRefs(p) && !e.ReasoningDelta? && !e.Finished?
    ensures var r := Step(p, mode, e); CompletedKept(p, r) && r.openReasoning == p.openReasoning
  {
    hide FinishStream, ProjectDelta, CompleteAssistant, StartAssistant, AppendAssistant, Refs, DraftRef;
    var delta := if e.MessageDelta? || e.TextDelta? then e.delta else "";
    var id := if e.TextDelta? || e.ToolCall? then LEGACY_MESSAGE else e.messageId;
    var phase := if e.MessageStarted? then e.phase else Unknown;
    StreamKeeps(p, id, delta);
    SayingKeeps(p, id, Unknown, delta);
    StartKeeps(p, id, phase);
    StartKeeps(FinishStream(p), id, Commentary);
  }

  lemma FinishingKeeps(p: Projection, mode: Mode, requestedTools: bool)
    requires AllRefs(p)
    ensures var r, thought := Step(p, mode, Finished(requestedTools)), OpenThought(p);
      && CompletedKept(p, r) && r.openReasoning.None?
      && (thought.Some? ==>
            var i := p.openReasoning.value.item;
            i < |r.items| && r.items[i] == Item(ReasoningItem, Completed, thought.value, Unknown))
  {
    hide FinishStream, CompleteAssistant, CompleteReasoning, DraftRef;
    var q := if mode == PlanMode then FinishStream(p) else p;
    var phase := if q.sawToolCall || requestedTools then Commentary else FinalAnswer;
    EverythingKept(p);
    StreamKeeps(p, "", "");
    StartKeeps(q, "", phase);
    CompletingKeepsRefs(q, phase);
    ReasoningEnds(CompleteAssistant(q, phase).(sawToolCall := false));
  }

  lemma CompletingKeepsRefs(p: Projection, phase: Phase)
    requires AllRefs(p)
    ensures AllRefs(CompleteAssistant(p, phase).(sawToolCall := false))
  {
  }

  lemma StepKeepsCompleted(p: Projection, mode: Mode, e: Event)
    requires AllRefs(p)
    ensures CompletedKept(p, Step(p, mode, e))
  {
    hide Step, AllRefs, AppendReasoning;
    match e
    case ReasoningDelta(delta) =>
      ReasoningStep(p, delta);
      StepOnReasoning(p, mode, delta);
    case Finished(requestedTools) => FinishingKeeps(p, mode, requestedTools);
    case _ => TalkKeeps(p, mode, e);
  }

  lemma StepOnReasoning(p: Projection, mode: Mode, delta: string)
    requires AllRefs(p)
    ensures Step(p, mode, ReasoningDelta(delta)) == AppendReasoning(p, delta)
  {
  }

  /** In either mode, whatever happens: an item once completed is never changed. */
  lemma {:induction false} CompletedItemsAreFinal(p: Projection, mode: Mode, events: seq<Event>)
    requires AllRefs(p)
    ensures CompletedKept(p, Run(p, mode, events))
    decreases |events|
  {
    hide Step, AllRefs;
    if events != [] {
      StepKeepsCompleted(p, mode, events[0]);
      CompletedItemsAreFinal(Step(p, mode, events[0]), mode, events[1..]);
    }
  }

  /** In either mode the open reasoning is exactly what the model reasoned since it last finished, whatever it said
      in between. */
  lemma {:induction false} ReasoningIsWhole(mode: Mode, events: seq<Event>)
    ensures OpenThought(Run(EMPTY, mode, events)) == Thought(events)
    decreases |events|
  {
    hide Run, Step, AppendReasoning;
    if events == [] {
      RunNothing(EMPTY, mode);
    } else {
      var front, last := events[..|events| - 1], events[|events| - 1];
      assert events == front + [last];
      RunSnoc(EMPTY, mode, front, last);
      ReasoningIsWhole(mode, front);
      var p := Run(EMPTY, mode, front);
      match last
      case ReasoningDelta(delta) =>
        ReasoningStep(p, delta);
        StepOnReasoning(p, mode, delta);
      case Finished(requestedTools) => FinishingKeeps(p, mode, requestedTools);
      case _ => TalkKeeps(p, mode, last);
    }
  }

  /** And it is completed as one reasoning item when the model finishes. */
  lemma ReasoningIsRecorded(mode: Mode, events: seq<Event>, requestedTools: bool)
    ensures var p, r := Run(EMPTY, mode, events), Run(EMPTY, mode, events + [Finished(requestedTools)]);
      && r.openReasoning.None?
      && (Thought(events).Some? ==>
            && p.openReasoning.Some? && var i := p.openReasoning.value.item;
            && i < |r.items| && r.items[i] == Item(ReasoningItem, Completed, Thought(events).value, Unknown))
  {
    hide Run, Step, Thought;
    RunSnoc(EMPTY, mode, events, Finished(requestedTools));
    ReasoningIsWhole(mode, events);
    FinishingKeeps(Run(EMPTY, mode, events), mode, requestedTools);
  }
}
