/** Outside Plan mode the transcript conserves the model's text. */
module DefaultMode {
  import opened Text
  import opened PlanStream
  import opened ProjectorEvents

  /** The texts of the assistant items, in creation order. */
  function AssistantText(items: seq<Item>): string
  {
    if items == [] then "" else
    var n := |items| - 1;
    AssistantText(items[..n]) + (if items[n].kind == AssistantItem then items[n].text else "")
  }

  function Received(events: seq<Event>): string
  {
    if events == [] then "" else
    (if events[0].MessageDelta? || events[0].TextDelta? then events[0].delta else "") + Received(events[1..])
  }

  /** No stream is open, the open assistant item is the newest assistant item, and every other
      assistant item is completed with a definite phase. */
  predicate DefaultOk(p: Projection)
  {
    && AllRefs(p) && p.stream.None?
    && (forall i :: 0 <= i < |p.items| && p.items[i].kind == AssistantItem ==>
          || (p.openAssistant.Some? && p.openAssistant.value.item == i)
          || (p.items[i].status == Completed && p.items[i].phase != Unknown
              && (p.openAssistant.Some? ==> i < p.openAssistant.value.item)))
  }

  lemma {:induction false} GrowLastAssistant(items: seq<Item>, i: nat, item: Item, more: string)
    requires i < |items| && items[i].kind == AssistantItem
    requires item.kind == AssistantItem && item.text == items[i].text + more
    requires forall j :: i < j < |items| ==> items[j].kind != AssistantItem
    ensures AssistantText(items[i := item]) == AssistantText(items) + more
  {
    var n := |items| - 1;
    var front, grown := items[..n], items[i := item];
    AssistantTextStep(items);
    AssistantTextStep(grown);
    hide AssistantText;
    if i == n {
      assert grown[..n] == front;
      Reassociate(AssistantText(front), items[n].text, more);
    } else {
      assert grown[..n] == front[i := item];
      GrowLastAssistant(front, i, item, more);
    }
  }

  lemma Reassociate(a: string, b: string, c: string)
    ensures a + (b + c) == a + b + c
  {
  }

  lemma AssistantTextStep(items: seq<Item>)
    requires items != []
    ensures var n := |items| - 1;
      AssistantText(items) == if items[n].kind == AssistantItem then AssistantText(items[..n]) + items[n].text
                              else AssistantText(items[..n])
  {
    var n := |items| - 1;
    assert AssistantText(items[..n]) + "" == AssistantText(items[..n]);
  }

  lemma {:induction false} OtherKindsDoNotCount(items: seq<Item>, i: nat, item: Item)
    requires i < |items| && items[i].kind != AssistantItem && item.kind != AssistantItem
    ensures AssistantText(items[i := item]) == AssistantText(items)
  {
    var n := |items| - 1;
    if i == n {
      assert items[i := item][..n] == items[..n];
    } else {
      assert items[i := item][..n] == items[..n][i := item];
      OtherKindsDoNotCount(items[..n], i, item);
    }
  }

  lemma EmptyItemAddsNothing(items: seq<Item>, item: Item)
    ensures item.text == "" || item.kind != AssistantItem ==> AssistantText(items + [item]) == AssistantText(items)
  {
    assert (items + [item])[..|items|] == items;
    assert AssistantText(items) + "" == AssistantText(items);
  }

  lemma CompleteConserves(p: Projection, inferred: Phase)
    requires DefaultOk(p)
    requires inferred != Unknown || (p.openAssistant.Some? ==> p.openAssistant.value.phase != Unknown)
    ensures DefaultOk(CompleteAssistant(p, inferred))
    ensures AssistantText(CompleteAssistant(p, inferred).items) == AssistantText(p.items)
  {
    if p.openAssistant.Some? {
      var a := p.openAssistant.value;
      var done := CompleteAssistant(p, inferred).items[a.item];
      assert done.text == p.items[a.item].text + "";
      GrowLastAssistant(p.items, a.item, done, "");
      assert AssistantText(p.items) + "" == AssistantText(p.items);
    }
  }

  lemma StartConserves(p: Projection, messageId: string, phase: Phase)
    requires DefaultOk(p)
    ensures DefaultOk(StartAssistant(p, messageId, phase))
    ensures AssistantText(StartAssistant(p, messageId, phase).items) == AssistantText(p.items)
  {
    if !(p.openAssistant.Some? && p.openAssistant.value.messageId == messageId) {
      CompleteConserves(p, Commentary);
      EmptyItemAddsNothing(CompleteAssistant(p, Commentary).items, Item(AssistantItem, InProgress, "", phase));
    }
  }

  lemma DeltaConserves(p: Projection, messageId: string, delta: string)
    requires DefaultOk(p)
    ensures DefaultOk(AssistantDelta(p, messageId, delta))
    ensures AssistantText(AssistantDelta(p, messageId, delta).items) == AssistantText(p.items) + delta
  {
    StartConserves(p, messageId, Unknown);
    var s := StartAssistant(p, messageId, Unknown);
    var i := s.openAssistant.value.item;
    GrowLastAssistant(s.items, i, s.items[i].(text := s.items[i].text + delta), delta);
  }

  lemma ReasoningConserves(p: Projection, delta: string)
    requires DefaultOk(p)
    ensures DefaultOk(AppendReasoning(p, delta))
    ensures AssistantText(AppendReasoning(p, delta).items) == AssistantText(p.items)
  {
    hide AssistantText;
    var empty := Item(ReasoningItem, InProgress, "", Unknown);
    if p.openReasoning.Some? {
      var o := p.openReasoning.value;
      OtherKindsDoNotCount(p.items, o.item, p.items[o.item].(text := p.items[o.item].text + delta));
    } else {
      EmptyItemAddsNothing(p.items, empty);
      OtherKindsDoNotCount(p.items + [empty], |p.items|, empty.(text := empty.text + delta));
    }
  }

  lemma ReasoningDoneConserves(p: Projection)
    requires DefaultOk(p)
    ensures DefaultOk(CompleteReasoning(p))
    ensures AssistantText(CompleteReasoning(p).items) == AssistantText(p.items)
  {
    hide AssistantText;
    if p.openReasoning.Some? {
      var o := p.openReasoning.value;
      OtherKindsDoNotCount(p.items, o.item, Item(ReasoningItem, Completed, o.text, Unknown));
    }
  }

  lemma StepConserves(p: Projection, e: Event)
    requires DefaultOk(p)
    ensures DefaultOk(Step(p, DefaultMode, e))
    ensures AssistantText(Step(p, DefaultMode, e).items) == AssistantText(p.items) + Received([e])
  {
    hide StartAssistant, CompleteAssistant, AppendReasoning, CompleteReasoning, AssistantText, AssistantDelta;
    assert [e][1..] == [];
    assert AssistantText(p.items) + "" == AssistantText(p.items);
    match e
    case MessageStarted(messageId, phase) => StartConserves(p, messageId, phase);
    case MessageDelta(messageId, delta) =>
      DeltaConserves(p, messageId, delta);
      assert delta + "" == delta;
    case MessageCompleted(_) =>
      if p.openAssistant.Some? && p.openAssistant.value.phase != Unknown {
        CompleteConserves(p, Unknown);
      }
    case TextDelta(delta) =>
      DeltaConserves(p, LEGACY_MESSAGE, delta);
      assert delta + "" == delta;
    case ReasoningDelta(delta) => ReasoningConserves(p, delta);
    case ToolCall =>
    case Finished(requestedTools) =>
      var phase := if p.sawToolCall || requestedTools then Commentary else FinalAnswer;
      CompleteConserves(p, phase);
      ReasoningDoneConserves(CompleteAssistant(p, phase).(sawToolCall := false));
  }

  /** For every event sequence: the assistant items together hold exactly the deltas received, at most
      one of them is open and it is the newest, and every completed one has a definite phase. */
  lemma {:induction false} Conservation(p: Projection, events: seq<Event>)
    requires DefaultOk(p)
    ensures DefaultOk(Run(p, DefaultMode, events))
    ensures AssistantText(Run(p, DefaultMode, events).items) == AssistantText(p.items) + Received(events)
    decreases |events|
  {
    hide Step, AssistantText;
    if events != [] {
      StepConserves(p, events[0]);
      Conservation(Step(p, DefaultMode, events[0]), events[1..]);
      assert [events[0]][1..] == [];
      assert Received([events[0]]) + Received(events[1..]) == Received(events);
    }
  }

  // ---- Phases ----

  /** The model asked for a tool after it last finished. */
  predicate ToolCalledSinceFinish(events: seq<Event>)
  {
    events != [] &&
    var last := events[|events| - 1];
    last.ToolCall? || (!last.Finished? && ToolCalledSinceFinish(events[..|events| - 1]))
  }

  lemma {:induction false} ToolCallsAreRemembered(events: seq<Event>)
    ensures Run(EMPTY, DefaultMode, events).sawToolCall <==> ToolCalledSinceFinish(events)
    decreases |events|
  {
    hide Run;
    if events == [] {
      RunNothing(EMPTY, DefaultMode);
    } else {
      var front, last := events[..|events| - 1], events[|events| - 1];
      assert events == front + [last];
      RunSnoc(EMPTY, DefaultMode, front, last);
      ToolCallsAreRemembered(front);
      StepRemembersToolCalls(Run(EMPTY, DefaultMode, front), last);
    }
  }

  lemma StepRemembersToolCalls(p: Projection, e: Event)
    requires AllRefs(p)
    ensures Step(p, DefaultMode, e).sawToolCall <==> e.ToolCall? || (!e.Finished? && p.sawToolCall)
  {
  }

  // ---- One message ----

  /** The event belongs to the message, or to none; the message is not over, given the phase it announced so
      far. */
  predicate Continues(e: Event, messageId: string, announced: Phase)
  {
    match e
    case MessageStarted(id, _) => id == messageId
    case MessageDelta(id, _) => id == messageId
    case TextDelta(_) => messageId == LEGACY_MESSAGE
    case MessageCompleted(id) => id != messageId || announced == Unknown
    case ReasoningDelta(_) => true
    case ToolCall => true
    case Finished(_) => false
  }

  /** The first definite phase the model announced for the message. */
  function Announced(events: seq<Event>): Phase
  {
    if events == [] then Unknown else
    var before, last := Announced(events[..|events| - 1]), events[|events| - 1];
    if before == Unknown && last.MessageStarted? then last.phase else before
  }

  /** The events from the first of a message on, as long as it is not over. */
  predicate OneMessage(events: seq<Event>, messageId: string)
  {
    events != [] &&
    var front, last := events[..|events| - 1], events[|events| - 1];
    if front == [] then
      (last.MessageStarted? || last.MessageDelta? || last.TextDelta?) && Continues(last, messageId, Unknown)
    else OneMessage(front, messageId) && Continues(last, messageId, Announced(front))
  }

  predicate NotOpen(p: Projection, messageId: string)
  {
    p.openAssistant.Some? ==> p.openAssistant.value.messageId != messageId
  }

  /** The item of the open message, as it is recorded while in progress. */
  function OpenItem(p: Projection): Item
    requires Refs(p) && p.openAssistant.Some?
  {
    p.items[p.openAssistant.value.item]
  }

  /** What starting or continuing a message and adding text to it do to the open item. */
  lemma TextGoesToTheMessage(p: Projection, messageId: string, phase: Phase, delta: string)
    requires AllRefs(p)
    ensures var a := p.openAssistant;
      var s, r := StartAssistant(p, messageId, phase), AssistantDelta(p, messageId, delta);
      && s.sawToolCall == r.sawToolCall == p.sawToolCall
      && (NotOpen(p, messageId) ==>
            && s.openAssistant == Some(Assistant(|p.items|, messageId, "", phase)) && OpenItem(s).phase == phase
            && r.openAssistant == Some(Assistant(|p.items|, messageId, delta, Unknown)) && OpenItem(r).phase == Unknown)
      && (!NotOpen(p, messageId) ==>
            && s.openAssistant == Some(a.value.(phase := if a.value.phase == Unknown then phase else a.value.phase))
            && r.openAssistant == Some(a.value.(text := a.value.text + delta))
            && OpenItem(s).phase == OpenItem(r).phase == OpenItem(p).phase)
  {
    assert "" + delta == delta;
  }

  /** The other events of a message leave its item alone. */
  lemma OtherEventsKeepTheItem(p: Projection, e: Event)
    requires AllRefs(p) && p.openAssistant.Some?
    requires e.ReasoningDelta? || e.ToolCall?
    ensures var r := Step(p, DefaultMode, e); r.openAssistant == p.openAssistant && OpenItem(r) == OpenItem(p)
  {
  }

  lemma ReceivedOne(e: Event)
    ensures Received([e]) == if e.MessageDelta? || e.TextDelta? then e.delta else ""
  {
    assert [e][1..] == [];
    assert e.MessageDelta? || e.TextDelta? ==> e.delta + "" == e.delta;
  }

  function FirstPhase(e: Event): Phase
  {
    if e.MessageStarted? then e.phase else Unknown
  }

  lemma FirstOfMessage(p: Projection, messageId: string, e: Event)
    requires AllRefs(p) && NotOpen(p, messageId) && OneMessage([e], messageId)
    ensures var r := Step(p, DefaultMode, e);
      && r.openAssistant == Some(Assistant(|p.items|, messageId, Received([e]), FirstPhase(e)))
      && OpenItem(r).phase == FirstPhase(e) && r.sawToolCall == p.sawToolCall
  {
    hide Received, StartAssistant, AssistantDelta, AllRefs, NotOpen, OpenItem;
    TextGoesToTheMessage(p, messageId, FirstPhase(e), if e.MessageDelta? || e.TextDelta? then e.delta else "");
    ReceivedOne(e);
  }

  lemma NextOfMessage(p: Projection, messageId: string, e: Event)
    requires AllRefs(p) && p.openAssistant.Some? && p.openAssistant.value.messageId == messageId
    requires Continues(e, messageId, p.openAssistant.value.phase)
    ensures var a, r := p.openAssistant.value, Step(p, DefaultMode, e);
      var phase := if a.phase == Unknown then FirstPhase(e) else a.phase;
      && r.openAssistant == Some(Assistant(a.item, messageId, a.text + Received([e]), phase))
      && OpenItem(r).phase == OpenItem(p).phase && r.sawToolCall == (p.sawToolCall || e.ToolCall?)
  {
    assert p.openAssistant.value.text + "" == p.openAssistant.value.text;
    hide Received, StartAssistant, AssistantDelta, AllRefs, OpenItem;
    TextGoesToTheMessage(p, messageId, FirstPhase(e), if e.MessageDelta? || e.TextDelta? then e.delta else "");
    ReceivedOne(e);
    if e.ReasoningDelta? || e.ToolCall? {
      OtherEventsKeepTheItem(p, e);
    }
  }

  lemma ReceivedStep(e: Event, later: seq<Event>)
    ensures Received([e] + later) == Received([e]) + Received(later)
  {
    assert ([e] + later)[1..] == later && [e][1..] == [];
    assert (if e.MessageDelta? || e.TextDelta? then e.delta else "") + "" == Received([e]);
  }

  lemma {:induction false} ReceivedSnoc(events: seq<Event>, e: Event)
    ensures Received(events + [e]) == Received(events) + Received([e])
  {
    if events == [] {
      assert [] + [e] == [e] && "" + Received([e]) == Received([e]);
    } else {
      hide Received;
      var first, later := events[0], events[1..];
      ReceivedSnoc(later, e);
      ReceivedStep(first, later);
      ReceivedStep(first, later + [e]);
      assert events == [first] + later && events + [e] == [first] + (later + [e]);
      assert Received([first]) + (Received(later) + Received([e]))
          == Received([first]) + Received(later) + Received([e]);
    }
  }

  predicate CallsTool(events: seq<Event>)
  {
    exists e :: e in events && e.ToolCall?
  }

  /** While a message lasts, its item is the one created by its first event, with all the text received since and
      the first definite phase announced, whatever else happens in between; until it is completed the item is
      recorded with the phase of its first event. */
  lemma {:induction false} MessageIsOpen(p: Projection, messageId: string, events: seq<Event>)
    requires AllRefs(p) && NotOpen(p, messageId) && OneMessage(events, messageId)
    ensures var r := Run(p, DefaultMode, events);
      && r.openAssistant == Some(Assistant(|p.items|, messageId, Received(events), Announced(events)))
      && OpenItem(r) == Item(AssistantItem, InProgress, Received(events), FirstPhase(events[0]))
      && (r.sawToolCall <==> p.sawToolCall || CallsTool(events))
    decreases |events|
  {
    hide Run, Step, Continues, Received, NotOpen;
    var front, last := events[..|events| - 1], events[|events| - 1];
    assert events == front + [last];
    RunSnoc(p, DefaultMode, front, last);
    assert forall e :: e in events <==> e in front || e == last;
    if front == [] {
      RunNothing(p, DefaultMode);
      assert events == [last];
      FirstOfMessage(p, messageId, last);
    } else {
      MessageIsOpen(p, messageId, front);
      NextOfMessage(Run(p, DefaultMode, front), messageId, last);
      ReceivedSnoc(front, last);
    }
  }

  /** The phase a message ends with: the one announced; without one, a message that is still open when the model
      finishes is a final answer exactly when no tool was asked for, and one that another message interrupts is
      commentary. */
  function FinalPhase(toolCalled: bool, events: seq<Event>, last: Event): Phase
  {
    if Announced(events) != Unknown then Announced(events)
    else if last.Finished? && !toolCalled && !CallsTool(events) && !last.requestedTools then FinalAnswer
    else Commentary
  }

  /** The message `a` is over: its item is completed with its text and `phase`, and it is the last one. */
  predicate Ended(r: Projection, a: Assistant, phase: Phase)
  {
    && a.item < |r.items| && r.items[a.item] == Item(AssistantItem, Completed, a.text, phase)
    && r.lastAssistant == Some(a.(phase := phase)) && NotOpen(r, a.messageId)
  }

  lemma CompletingEnds(p: Projection, inferred: Phase)
    requires AllRefs(p) && p.openAssistant.Some?
    ensures var a := p.openAssistant.value;
      var c, phase := CompleteAssistant(p, inferred), if a.phase != Unknown then a.phase else inferred;
      && Ended(c, a, phase)
      && AllRefs(c.(sawToolCall := false)) && Ended(CompleteReasoning(c.(sawToolCall := false)), a, phase)
  {
  }

  lemma AnotherMessageEnds(p: Projection, messageId: string, phase: Phase, delta: string)
    requires AllRefs(p) && p.openAssistant.Some? && p.openAssistant.value.messageId != messageId
    ensures var a := p.openAssistant.value;
      var last := if a.phase != Unknown then a.phase else Commentary;
      && Ended(StartAssistant(p, messageId, phase), a, last)
      && Ended(AssistantDelta(p, messageId, delta), a, last)
  {
  }

  lemma StepEnds(p: Projection, messageId: string, e: Event)
    requires AllRefs(p) && p.openAssistant.Some? && p.openAssistant.value.messageId == messageId
    requires !Continues(e, messageId, p.openAssistant.value.phase)
    ensures var a := p.openAssistant.value;
      var phase := if a.phase != Unknown then a.phase
                   else if e.Finished? && !p.sawToolCall && !e.requestedTools then FinalAnswer else Commentary;
      Ended(Step(p, DefaultMode, e), a, phase)
  {
    hide Ended, AllRefs, StartAssistant, AssistantDelta, CompleteAssistant, CompleteReasoning;
    match e
    case MessageStarted(id, phase) => AnotherMessageEnds(p, id, phase, "");
    case MessageDelta(id, delta) => AnotherMessageEnds(p, id, Unknown, delta);
    case TextDelta(delta) => AnotherMessageEnds(p, LEGACY_MESSAGE, Unknown, delta);
    case MessageCompleted(_) => CompletingEnds(p, Unknown);
    case Finished(requestedTools) =>
      CompletingEnds(p, if p.sawToolCall || requestedTools then Commentary else FinalAnswer);
  }

  /** Every message ends as one completed item with exactly its text. It ends with its completion if it announced
      a phase, with the model's finishing and with the beginning of another message. */
  lemma MessageEnds(p: Projection, messageId: string, events: seq<Event>, last: Event)
    requires AllRefs(p) && NotOpen(p, messageId) && OneMessage(events, messageId)
    requires !Continues(last, messageId, Announced(events))
    ensures var r := Run(p, DefaultMode, events + [last]);
      var n, phase := |p.items|, FinalPhase(p.sawToolCall, events, last);
      && n < |r.items| && r.items[n] == Item(AssistantItem, Completed, Received(events), phase)
      && r.lastAssistant == Some(Assistant(n, messageId, Received(events), phase))
      && NotOpen(r, messageId)
  {
    hide Run, Step, AllRefs, NotOpen, Received, Announced, OneMessage, CallsTool, OpenItem;
    MessageIsOpen(p, messageId, events);
    RunSnoc(p, DefaultMode, events, last);
    StepEnds(Run(p, DefaultMode, events), messageId, last);
  }

  /** When the model finishes, its open message is completed with all its text and with the phase it
      announced; without one it is a final answer exactly when no tool was asked for since it last
      finished. */
  lemma FinishedPhase(events: seq<Event>, requestedTools: bool)
    ensures var p := Run(EMPTY, DefaultMode, events);
      var r := Run(EMPTY, DefaultMode, events + [Finished(requestedTools)]);
      && r.openAssistant.None? && r.openReasoning.None? && !r.sawToolCall
      && (p.openAssistant.Some? ==>
            var a := p.openAssistant.value;
            var phase := if a.phase != Unknown then a.phase
                         else if requestedTools || ToolCalledSinceFinish(events) then Commentary else FinalAnswer;
            a.item < |r.items| && r.items[a.item] == Item(AssistantItem, Completed, a.text, phase))
  {
    hide Run;
    var p := Run(EMPTY, DefaultMode, events);
    RunSnoc(EMPTY, DefaultMode, events, Finished(requestedTools));
    ToolCallsAreRemembered(events);
  }
}
