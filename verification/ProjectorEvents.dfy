/** The model events of one run, in either behaviour mode, folded over the projection. */
module ProjectorEvents {
  import opened Text
  import opened PlanStream

  datatype Mode = PlanMode | DefaultMode

  datatype Event =
    | MessageStarted(messageId: string, phase: Phase)
    | MessageDelta(messageId: string, delta: string)
    | MessageCompleted(messageId: string)
    | TextDelta(delta: string)
    | ReasoningDelta(delta: string)
    | ToolCall
    | Finished(requestedTools: bool)

  const LEGACY_MESSAGE := "legacy-message-0"

  function AssistantDelta(p: Projection, messageId: string, delta: string): (r: Projection)
    requires AllRefs(p)
    ensures AllRefs(r)
  {
    AppendAssistant(StartAssistant(p, messageId, Unknown), delta)
  }

  function AppendReasoning(p: Projection, delta: string): (r: Projection)
    requires AllRefs(p)
    ensures AllRefs(r)
  {
    var q := if p.openReasoning.Some? then p else
             p.(items := p.items + [Item(ReasoningItem, InProgress, "", Unknown)],
                openReasoning := Some(TextRef(|p.items|, "")));
    var o := q.openReasoning.value;
    q.(items := AppendText(q.items, o.item, delta), openReasoning := Some(o.(text := o.text + delta)))
  }

  function CompleteReasoning(p: Projection): (r: Projection)
    requires AllRefs(p)
    ensures AllRefs(r)
  {
    if p.openReasoning.None? then p else
    var o := p.openReasoning.value;
    p.(items := Complete(p.items, o.item, ReasoningItem, o.text, Unknown), openReasoning := None)
  }

  function Step(p: Projection, mode: Mode, e: Event): (r: Projection)
    requires AllRefs(p)
    ensures AllRefs(r)
  {
    match e
    case MessageStarted(messageId, phase) =>
      if mode == PlanMode then FinishStream(p).(stream := Some(Fresh(messageId)))
      else StartAssistant(p, messageId, phase)
    case MessageDelta(messageId, delta) =>
      if mode == PlanMode then ProjectDelta(p, messageId, delta) else AssistantDelta(p, messageId, delta)
    case MessageCompleted(messageId) =>
      if mode == PlanMode then CompleteAssistant(FinishStream(p), Commentary)
      else if p.openAssistant.Some? && p.openAssistant.value.messageId == messageId
              && p.openAssistant.value.phase != Unknown
      then CompleteAssistant(p, Unknown)
      else p
    case TextDelta(delta) =>
      if mode == PlanMode then ProjectDelta(p, LEGACY_MESSAGE, delta) else AssistantDelta(p, LEGACY_MESSAGE, delta)
    case ReasoningDelta(delta) => AppendReasoning(p, delta)
    case ToolCall => p.(sawToolCall := true)
    case Finished(requestedTools) =>
      var q := if mode == PlanMode then FinishStream(p) else p;
      var phase := if q.sawToolCall || requestedTools then Commentary else FinalAnswer;
      CompleteReasoning(CompleteAssistant(q, phase).(sawToolCall := false))
  }

  function Run(p: Projection, mode: Mode, events: seq<Event>): (r: Projection)
    requires AllRefs(p)
    ensures AllRefs(r)
    decreases |events|
  {
    if events == [] then p else Run(Step(p, mode, events[0]), mode, events[1..])
  }

  lemma {:induction false} RunSnoc(p: Projection, mode: Mode, events: seq<Event>, last: Event)
    requires AllRefs(p)
    ensures Run(p, mode, events + [last]) == Step(Run(p, mode, events), mode, last)
    decreases |events|
  {
    hide Step, AllRefs;
    if events == [] {
      assert events + [last] == [last] && [last][1..] == [];
      RunNothing(Step(p, mode, last), mode);
    } else {
      assert (events + [last])[1..] == events[1..] + [last];
      RunSnoc(Step(p, mode, events[0]), mode, events[1..], last);
    }
  }

  lemma RunNothing(p: Projection, mode: Mode)
    requires AllRefs(p)
    ensures Run(p, mode, []) == p
  {
  }
}
