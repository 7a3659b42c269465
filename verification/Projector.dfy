/** The projector of one run in the source's own form: fields updated step by step, text drained from
    `pending` in a loop. Every method does what the function of the same name in PlanStream or
    ProjectorEvents says. */
module Projector {
  import opened Text
  import opened PlanStream
  import opened PlanStreamChunks
  import opened ProjectorEvents

  class LoopProjection {
    var items: seq<Item>
    var openAssistant: Option<Assistant>
    var openReasoning: Option<TextRef>
    var lastAssistant: Option<Assistant>
    var sawToolCall: bool
    var planStream: Option<Stream>
    var completedPlan: Option<TextRef>

    ghost function Value(): Projection
      reads this
    {
      Projection(items, openAssistant, openReasoning, lastAssistant, sawToolCall, planStream, completedPlan)
    }

    ghost predicate Valid()
      reads this
    {
      AllRefs(Value())
    }

    constructor ()
      ensures Valid() && Value() == EMPTY
    {
      items := [];
      openAssistant, lastAssistant := None, None;
      openReasoning, completedPlan := None, None;
      planStream := None;
      sawToolCall := false;
    }

    // ---- The transcript store ----

    method AppendItem(item: Item) returns (id: nat)
      modifies this`items
      ensures id == |old(items)| && items == old(items) + [item]
    {
      id := |items|;
      items := items + [item];
    }

    method AppendLiveDelta(id: nat, delta: string)
      requires id < |items|
      modifies this`items
      ensures items == AppendText(old(items), id, delta)
    {
      items := items[id := items[id].(text := items[id].text + delta)];
    }

    /** The store completes only items that are in progress; no caller ever asks for another. */
    method CompleteItem(id: nat, kind: Kind, text: string, phase: Phase)
      requires id < |items| && items[id].status == InProgress
      modifies this`items
      ensures items == Complete(old(items), id, kind, text, phase)
    {
      items := items[id := Item(kind, Completed, text, phase)];
    }

    // ---- Assistant items ----

    method CompleteAssistantProjection(inferred: Phase)
      requires Refs(Value())
      modifies this
      ensures Value() == CompleteAssistant(old(Value()), inferred) && (old(Valid()) ==> Valid())
    {
      if openAssistant.None? {
        return;
      }
      var assistant := openAssistant.value;
      openAssistant := None;
      if assistant.phase == Unknown {
        assistant := assistant.(phase := inferred);
      }
      CompleteItem(assistant.item, AssistantItem, assistant.text, assistant.phase);
      lastAssistant := Some(assistant);
    }

    method StartAssistantProjection(messageId: string, phase: Phase)
      requires Refs(Value())
      modifies this
      ensures Value() == StartAssistant(old(Value()), messageId, phase) && (old(Valid()) ==> Valid())
    {
      if openAssistant.Some? && openAssistant.value.messageId == messageId {
        if openAssistant.value.phase == Unknown && phase != Unknown {
          openAssistant := Some(openAssistant.value.(phase := phase));
        }
        return;
      }
      if openAssistant.Some? {
        var previous := openAssistant.value;
        openAssistant := None;
        if previous.phase == Unknown {
          previous := previous.(phase := Commentary);
        }
        CompleteItem(previous.item, AssistantItem, previous.text, previous.phase);
        lastAssistant := Some(previous);
      }
      var id := AppendItem(Item(AssistantItem, InProgress, "", phase));
      openAssistant := Some(Assistant(id, messageId, "", phase));
    }

    method AppendToAssistant(text: string)
      requires Refs(Value()) && openAssistant.Some?
      modifies this
      ensures Value() == AppendAssistant(old(Value()), text)
    {
      var assistant := openAssistant.value;
      openAssistant := Some(assistant.(text := assistant.text + text));
      AppendLiveDelta(assistant.item, text);
    }

    method AppendCommentarySegment(messageId: string, text: string)
      requires Refs(Value())
      modifies this
      ensures Value() == AppendCommentary(old(Value()), messageId, text)
    {
      if text == "" {
        return;
      }
      StartAssistantProjection(messageId, Commentary);
      AppendToAssistant(text);
    }

    // ---- Plan items; the stream has been taken out of the projection ----

    method StartPlanItem(stream: Stream) returns (next: Stream)
      requires WorkRefs(Work(Value(), stream))
      modifies this
      ensures Work(Value(), next) == StartPlan(old(Work(Value(), stream)))
    {
      next := stream;
      if stream.draft.Some? {
        return;
      }
      var id := AppendItem(Item(PlanItem, InProgress, "", Unknown));
      next := stream.(draft := Some(TextRef(id, "")));
    }

    method AppendPlanSegment(stream: Stream, text: string) returns (next: Stream)
      requires WorkRefs(Work(Value(), stream))
      modifies this
      ensures Work(Value(), next) == AppendPlan(old(Work(Value(), stream)), text)
    {
      next := stream;
      if text == "" {
        return;
      }
      if stream.draft.None? && Blank(text) {
        next := stream.(leading := stream.leading + text);
        return;
      }
      next := StartPlanItem(next);
      var plan := next.draft.value;
      if next.leading != "" {
        plan := plan.(text := plan.text + next.leading);
        AppendLiveDelta(plan.item, next.leading);
        next := next.(leading := "");
      }
      plan := plan.(text := plan.text + text);
      AppendLiveDelta(plan.item, text);
      next := next.(draft := Some(plan));
    }

    method ClosePlanBlock(stream: Stream, text: string) returns (next: Stream)
      requires WorkRefs(Work(Value(), stream)) && stream.insidePlan
      modifies this
      ensures Work(Value(), next) == ClosePlan(Emit(old(Work(Value(), stream)), stream.messageId, text))
    {
      next := stream;
      if completedPlan.None? {
        next := AppendPlanSegment(next, text);
        if next.draft.Some? {
          var plan := next.draft.value;
          next := next.(draft := None);
          if !Blank(plan.text) {
            CompleteItem(plan.item, PlanItem, plan.text, Unknown);
            completedPlan := Some(plan);
          }
        }
      }
      next := next.(insidePlan := false);
    }

    method OpenPlanBlock(stream: Stream, messageId: string, before: string) returns (next: Stream)
      requires WorkRefs(Work(Value(), stream)) && !stream.insidePlan
      modifies this
      ensures Work(Value(), next) == OpenPlan(Emit(old(Work(Value(), stream)), messageId, before))
    {
      if before != "" {
        AppendCommentarySegment(messageId, before);
      }
      if openAssistant.Some? {
        CompleteAssistantProjection(Commentary);
      }
      next := stream.(insidePlan := true);
    }

    /** Drains the text before a complete tag and the tag itself. */
    method DrainTag(stream: Stream, messageId: string, index: nat) returns (next: Stream)
      requires WorkRefs(Work(Value(), stream)) && Find(stream.pending, Awaited(stream)) == Some(index)
      modifies this
      ensures Work(Value(), next) == Crossed(old(Work(Value(), stream)), messageId, index)
    {
      var tag := if stream.insidePlan then CLOSE else OPEN;
      var text := stream.pending[..index];
      next := stream.(pending := stream.pending[index + |tag|..]);
      if next.insidePlan {
        next := ClosePlanBlock(next, text);
      } else {
        next := OpenPlanBlock(next, messageId, text);
      }
    }

    /** Drains everything but the held-back suffix. */
    method DrainText(stream: Stream, messageId: string) returns (next: Stream)
      requires WorkRefs(Work(Value(), stream))
      modifies this
      ensures var end := |stream.pending| - PartialTagPrefixLen(stream.pending, Awaited(stream));
        Work(Value(), next)
          == EmitRest(old(Work(Value(), stream)), messageId, stream.pending[..end], stream.pending[end..])
    {
      hide PartialTagPrefixLen, StartAssistant, AppendAssistant, StartPlan, AppendDraft, FlushLeading, Held;
      next := stream;
      var keep := PartialTagPrefixLen(stream.pending, if stream.insidePlan then CLOSE else OPEN);
      if |stream.pending| > keep {
        var end := |stream.pending| - keep;
        var text := stream.pending[..end];
        next := stream.(pending := stream.pending[end..]);
        if !next.insidePlan {
          AppendCommentarySegment(messageId, text);
        } else if completedPlan.None? {
          next := AppendPlanSegment(next, text);
        }
      }
    }

    /** One delta: drain every complete tag from the pending text, then what cannot become a tag. */
    method ProjectPlanDelta(messageId: string, delta: string)
      requires Valid()
      modifies this
      ensures Valid() && Value() == ProjectDelta(old(Value()), messageId, delta)
    {
      hide Scan, EmitRest, Crossed, Held;
      var stream := if planStream.Some? then planStream.value else Fresh(messageId);
      planStream := None;
      stream := stream.(pending := stream.pending + delta);
      ghost var start := Work(Value(), stream);
      while true
        invariant WorkRefs(start) && WorkRefs(Work(Value(), stream))
        invariant Scan(Work(Value(), stream), messageId) == Scan(start, messageId)
        decreases |stream.pending|
      {
        var tag := if stream.insidePlan then CLOSE else OPEN;
        var found := Find(stream.pending, tag);
        if found.None? {
          break;
        }
        ScanFound(Work(Value(), stream), messageId, found.value);
        stream := DrainTag(stream, messageId, found.value);
      }
      ScanNotFound(Work(Value(), stream), messageId);
      stream := DrainText(stream, messageId);
      planStream := Some(stream);
    }

    /** The message ended inside a plan block and no plan is complete: what was written becomes
        commentary. */
    method FinishInsidePlan(stream: Stream, text: string)
      requires WorkRefs(Work(Value(), stream)) && stream.insidePlan && completedPlan.None?
      modifies this
      ensures var e := AppendPlan(old(Work(Value(), stream)), text);
        Value() == if e.st.draft.Some?
                   then e.p.(items := Complete(e.p.items, e.st.draft.value.item, AssistantItem,
                                               e.st.draft.value.text, Commentary))
                   else AppendCommentary(e.p, stream.messageId, e.st.leading)
    {
      var written := stream;
      if text != "" {
        written := AppendPlanSegment(written, text);
      }
      if written.draft.Some? {
        var plan := written.draft.value;
        CompleteItem(plan.item, AssistantItem, plan.text, Commentary);
      } else if written.leading != "" {
        AppendCommentarySegment(stream.messageId, written.leading);
      }
    }

    method FinishPlanStream()
      requires Valid()
      modifies this
      ensures Valid() && Value() == FinishStream(old(Value()))
    {
      hide AppendCommentary, AppendPlan, Complete;
      if planStream.None? {
        return;
      }
      var stream := planStream.value;
      planStream := None;
      ghost var start := Work(Value(), stream);
      var tag := if stream.insidePlan then CLOSE else OPEN;
      var text := stream.pending[..|stream.pending| - PartialTagPrefixLen(stream.pending, tag)];
      if stream.insidePlan {
        if completedPlan.None? {
          AppendPlanKeepsMessage(start, text);
          FinishInsidePlan(stream, text);
        }
      } else {
        AppendCommentarySegment(stream.messageId, text);
      }
      assert FinishWork(start).stream == None;
    }

    // ---- Events ----

    method AssistantDeltaProjection(messageId: string, delta: string)
      requires Valid()
      modifies this
      ensures Valid() && Value() == AssistantDelta(old(Value()), messageId, delta)
    {
      StartAssistantProjection(messageId, Unknown);
      AppendToAssistant(delta);
    }

    method ReasoningDeltaProjection(delta: string)
      requires Valid()
      modifies this
      ensures Valid() && Value() == AppendReasoning(old(Value()), delta)
    {
      if openReasoning.None? {
        var id := AppendItem(Item(ReasoningItem, InProgress, "", Unknown));
        openReasoning := Some(TextRef(id, ""));
      }
      var reasoning := openReasoning.value;
      openReasoning := Some(reasoning.(text := reasoning.text + delta));
      AppendLiveDelta(reasoning.item, delta);
    }

    method CompleteReasoningProjection()
      requires Valid()
      modifies this
      ensures Valid() && Value() == CompleteReasoning(old(Value()))
    {
      if openReasoning.Some? {
        var reasoning := openReasoning.value;
        openReasoning := None;
        CompleteItem(reasoning.item, ReasoningItem, reasoning.text, Unknown);
      }
    }

    /** One event of the model, in the run's behaviour mode. */
    method ProjectEvent(mode: Mode, event: Event)
      requires Valid()
      modifies this
      ensures Valid() && Value() == Step(old(Value()), mode, event)
    {
      hide ProjectDelta, FinishStream, StartAssistant, CompleteAssistant, AssistantDelta, AppendReasoning,
           CompleteReasoning;
      match event {
        case MessageStarted(messageId, phase) =>
          if mode == PlanMode {
            FinishPlanStream();
            planStream := Some(Fresh(messageId));
          } else {
            StartAssistantProjection(messageId, phase);
          }
        case MessageDelta(messageId, delta) =>
          if mode == PlanMode {
            ProjectPlanDelta(messageId, delta);
          } else {
            AssistantDeltaProjection(messageId, delta);
          }
        case MessageCompleted(messageId) =>
          if mode == PlanMode {
            FinishPlanStream();
            CompleteAssistantProjection(Commentary);
          } else if openAssistant.Some? && openAssistant.value.messageId == messageId
                    && openAssistant.value.phase != Unknown {
            CompleteAssistantProjection(Unknown);
          }
        case TextDelta(delta) =>
          if mode == PlanMode {
            ProjectPlanDelta(LEGACY_MESSAGE, delta);
          } else {
            AssistantDeltaProjection(LEGACY_MESSAGE, delta);
          }
        case ReasoningDelta(delta) =>
          ReasoningDeltaProjection(delta);
        case ToolCall =>
          sawToolCall := true;
        case Finished(requestedTools) =>
          if mode == PlanMode {
            FinishPlanStream();
          }
          CompleteAssistantProjection(if sawToolCall || requestedTools then Commentary else FinalAnswer);
          sawToolCall := false;
          CompleteReasoningProjection();
      }
    }

    /** The receiving loop over a whole run. */
    method ProjectEvents(mode: Mode, events: seq<Event>)
      requires Valid()
      modifies this
      ensures Valid() && Value() == Run(old(Value()), mode, events)
    {
      hide Step;
      var n := 0;
      while n < |events|
        invariant n <= |events| && Valid()
        invariant Run(Value(), mode, events[n..]) == Run(old(Value()), mode, events)
      {
        assert events[n..][0] == events[n] && events[n..][1..] == events[n + 1..];
        ProjectEvent(mode, events[n]);
        n := n + 1;
      }
    }
  }

  lemma AppendPlanKeepsMessage(w: Work, text: string)
    requires WorkRefs(w)
    ensures AppendPlan(w, text).st.messageId == w.st.messageId && AppendPlan(w, text).p.stream == w.p.stream
  {
  }
}
