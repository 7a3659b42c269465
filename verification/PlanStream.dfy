/** The incremental `<proposed_plan>` projector, as functions on values: the state of one run's
    transcript projection and what each operation does to it. The class in Projector.dfy performs
    the same operations in place. */
module PlanStream {
  import opened Text

  const OPEN := "<proposed_plan>"
  const CLOSE := "</proposed_plan>"

  datatype Phase = Unknown | Commentary | FinalAnswer
  datatype Kind = AssistantItem | PlanItem | ReasoningItem
  datatype Status = InProgress | Completed

  /** A transcript item; an item is named by its position in creation order. */
  datatype Item = Item(kind: Kind, status: Status, text: string, phase: Phase)

  datatype Assistant = Assistant(item: nat, messageId: string, text: string, phase: Phase)
  datatype TextRef = TextRef(item: nat, text: string)

  datatype Stream = Stream(
    messageId: string,
    pending: string,
    insidePlan: bool,
    leading: string,
    draft: Option<TextRef>)

  datatype Projection = Projection(
    items: seq<Item>,
    openAssistant: Option<Assistant>,
    openReasoning: Option<TextRef>,
    lastAssistant: Option<Assistant>,
    sawToolCall: bool,
    stream: Option<Stream>,
    completedPlan: Option<TextRef>)

  /** A projection whose stream has been taken out while a delta is being projected. */
  datatype Work = Work(p: Projection, st: Stream)

  const EMPTY := Projection([], None, None, None, false, None, None)

  function Fresh(messageId: string): Stream
  {
    Stream(messageId, "", false, "", None)
  }

  function Awaited(st: Stream): (tag: string)
    ensures |tag| > 0
  {
    if st.insidePlan then CLOSE else OPEN
  }

  /** The length of the longest proper, non-empty prefix of `tag` that `value` ends with, or 0. */
  function PartialTagPrefixLen(value: string, tag: string): (r: nat)
    requires |tag| > 0
    ensures r < |tag| && r <= |value| && EndsWith(value, tag[..r])
    ensures forall k: nat {:trigger EndsWith(value, tag[..k])} :: r < k < |tag| ==> !EndsWith(value, tag[..k])
  {
    LongestFrom(value, tag, |tag| - 1)
  }

  function LongestFrom(value: string, tag: string, k: nat): (r: nat)
    requires k < |tag|
    ensures r <= k && EndsWith(value, tag[..r])
    ensures forall j: nat {:trigger EndsWith(value, tag[..j])} :: r < j <= k ==> !EndsWith(value, tag[..j])
  {
    if k == 0 then 0
    else if EndsWith(value, tag[..k]) then k
    else LongestFrom(value, tag, k - 1)
  }

  // ---- The transcript store ----

  /** What the store does for a delta: the item's streamed text grows. */
  function AppendText(items: seq<Item>, i: nat, text: string): seq<Item>
    requires i < |items|
  {
    items[i := items[i].(text := items[i].text + text)]
  }

  function Complete(items: seq<Item>, i: nat, kind: Kind, text: string, phase: Phase): seq<Item>
    requires i < |items|
  {
    items[i := Item(kind, Completed, text, phase)]
  }

  /** The store refuses to complete an item that is not in progress, and the references the
      projector holds always name items in progress: the precondition of every operation below. */
  predicate Held(items: seq<Item>, i: nat, kind: Kind, text: string)
  {
    i < |items| && items[i].status == InProgress && items[i].kind == kind && items[i].text == text
  }

  predicate Refs(p: Projection)
  {
    && (p.openAssistant.Some? ==>
          Held(p.items, p.openAssistant.value.item, AssistantItem, p.openAssistant.value.text))
    && (p.openReasoning.Some? ==>
          Held(p.items, p.openReasoning.value.item, ReasoningItem, p.openReasoning.value.text))
  }

  predicate DraftRef(w: Work)
  {
    w.st.draft.Some? ==> Held(w.p.items, w.st.draft.value.item, PlanItem, w.st.draft.value.text)
  }

  predicate WorkRefs(w: Work)
  {
    Refs(w.p) && DraftRef(w)
  }

  predicate AllRefs(p: Projection)
  {
    Refs(p) && (p.stream.Some? ==> DraftRef(Work(p, p.stream.value)))
  }

  // ---- Assistant items ----

  function CompleteAssistant(p: Projection, inferred: Phase): (r: Projection)
    requires Refs(p)
    ensures Refs(r)
  {
    if p.openAssistant.None? then p else
    var a := p.openAssistant.value;
    var done := if a.phase == Unknown then a.(phase := inferred) else a;
    p.(items := Complete(p.items, a.item, AssistantItem, done.text, done.phase),
       openAssistant := None,
       lastAssistant := Some(done))
  }

  function StartAssistant(p: Projection, messageId: string, phase: Phase): (r: Projection)
    requires Refs(p)
    ensures Refs(r) && r.openAssistant.Some? && r.openAssistant.value.messageId == messageId
  {
    if p.openAssistant.Some? && p.openAssistant.value.messageId == messageId then
      var a := p.openAssistant.value;
      if a.phase == Unknown && phase != Unknown then p.(openAssistant := Some(a.(phase := phase))) else p
    else
      var q := CompleteAssistant(p, Commentary);
      q.(items := q.items + [Item(AssistantItem, InProgress, "", phase)],
         openAssistant := Some(Assistant(|q.items|, messageId, "", phase)))
  }

  function AppendAssistant(p: Projection, text: string): (r: Projection)
    requires Refs(p) && p.openAssistant.Some?
    ensures Refs(r)
  {
    var a := p.openAssistant.value;
    p.(items := AppendText(p.items, a.item, text), openAssistant := Some(a.(text := a.text + text)))
  }

  function AppendCommentary(p: Projection, messageId: string, text: string): (r: Projection)
    requires Refs(p)
    ensures Refs(r)
  {
    if text == "" then p else AppendAssistant(StartAssistant(p, messageId, Commentary), text)
  }

  /** Completing the open item and saying more touch neither the stream nor the plan; saying nothing does
      nothing at all. */
  lemma AssistantKeepsTheRest(p: Projection, messageId: string, text: string, inferred: Phase)
    requires Refs(p)
    ensures var said, done := AppendCommentary(p, messageId, text), CompleteAssistant(p, inferred);
      && said.stream == done.stream == p.stream
      && said.completedPlan == done.completedPlan == p.completedPlan
      && (text == "" ==> said == p)
  {
  }

  // ---- Plan items ----

  function StartPlan(w: Work): (r: Work)
    requires WorkRefs(w)
    ensures WorkRefs(r) && r.st.draft.Some?
  {
    if w.st.draft.Some? then w else
    Work(w.p.(items := w.p.items + [Item(PlanItem, InProgress, "", Unknown)]),
         w.st.(draft := Some(TextRef(|w.p.items|, ""))))
  }

  function AppendDraft(w: Work, text: string): (r: Work)
    requires WorkRefs(w) && w.st.draft.Some?
    ensures WorkRefs(r) && r.st.draft.Some?
  {
    var d := w.st.draft.value;
    Work(w.p.(items := AppendText(w.p.items, d.item, text)), w.st.(draft := Some(d.(text := d.text + text))))
  }

  /** Blank text kept from before goes in front of a new draft. */
  function FlushLeading(w: Work): (r: Work)
    requires WorkRefs(w) && w.st.draft.Some?
    ensures WorkRefs(r) && r.st.draft.Some?
  {
    if w.st.leading == "" then w
    else
      var f := AppendDraft(w, w.st.leading);
      f.(st := f.st.(leading := ""))
  }

  function AppendPlan(w: Work, text: string): (r: Work)
    requires WorkRefs(w)
    ensures WorkRefs(r)
  {
    if text == "" then w
    else if w.st.draft.None? && Blank(text) then w.(st := w.st.(leading := w.st.leading + text))
    else AppendDraft(FlushLeading(StartPlan(w)), text)
  }

  // ---- One delta ----

  /** Text between tags goes to the item the parser is filling; after a completed plan, the text of
      later blocks goes nowhere. */
  function Emit(w: Work, messageId: string, text: string): (r: Work)
    requires WorkRefs(w)
    ensures WorkRefs(r)
  {
    if !w.st.insidePlan then w.(p := AppendCommentary(w.p, messageId, text))
    else if w.p.completedPlan.None? then AppendPlan(w, text)
    else w
  }

  function OpenPlan(w: Work): (r: Work)
    requires WorkRefs(w)
    ensures WorkRefs(r)
  {
    Work(CompleteAssistant(w.p, Commentary), w.st.(insidePlan := true))
  }

  function ClosePlan(w: Work): (r: Work)
    requires WorkRefs(w)
    ensures WorkRefs(r)
  {
    var closed := w.st.(insidePlan := false);
    if w.p.completedPlan.Some? || w.st.draft.None? then w.(st := closed)
    else
      var d := w.st.draft.value;
      if Blank(d.text) then w.(st := closed.(draft := None))
      else Work(w.p.(items := Complete(w.p.items, d.item, PlanItem, d.text, Unknown), completedPlan := Some(d)),
                closed.(draft := None))
  }

  function CrossTag(w: Work): (r: Work)
    requires WorkRefs(w)
    ensures WorkRefs(r) && r.st.pending == w.st.pending
  {
    if w.st.insidePlan then ClosePlan(w) else OpenPlan(w)
  }

  function SetPending(w: Work, pending: string): (r: Work)
    requires WorkRefs(w)
    ensures WorkRefs(r)
  {
    w.(st := w.st.(pending := pending))
  }

  lemma EmitKeeps(w: Work, messageId: string, text: string)
    requires WorkRefs(w)
    ensures var r := Emit(w, messageId, text);
      r.st.pending == w.st.pending && r.st.insidePlan == w.st.insidePlan && r.st.messageId == w.st.messageId
  {
  }

  /** The scanning loop of one delta: consume every complete tag, then hold back the longest suffix
      that may be the beginning of the awaited tag. */
  function Scan(w: Work, messageId: string): (r: Work)
    requires WorkRefs(w)
    ensures WorkRefs(r)
    decreases |w.st.pending|
  {
    var tag := Awaited(w.st);
    match Find(w.st.pending, tag)
    case Some(i) =>
      var before := w.st.pending[..i];
      Scan(CrossTag(EmitRest(w, messageId, before, w.st.pending[i + |tag|..])), messageId)
    case None =>
      var end := |w.st.pending| - PartialTagPrefixLen(w.st.pending, tag);
      EmitRest(w, messageId, w.st.pending[..end], w.st.pending[end..])
  }

  function EmitRest(w: Work, messageId: string, text: string, rest: string): (r: Work)
    requires WorkRefs(w)
    ensures WorkRefs(r) && r.st.pending == rest
  {
    EmitKeeps(SetPending(w, rest), messageId, text);
    Emit(SetPending(w, rest), messageId, text)
  }

  function Take(p: Projection, messageId: string): (w: Work)
    requires AllRefs(p)
    ensures WorkRefs(w)
  {
    Work(p.(stream := None), if p.stream.Some? then p.stream.value else Fresh(messageId))
  }

  function Put(w: Work): (p: Projection)
    requires WorkRefs(w)
    ensures AllRefs(p)
  {
    w.p.(stream := Some(w.st))
  }

  function ProjectDelta(p: Projection, messageId: string, delta: string): (r: Projection)
    requires AllRefs(p)
    ensures AllRefs(r)
  {
    var w := Take(p, messageId);
    Put(Scan(SetPending(w, w.st.pending + delta), messageId))
  }

  // ---- End of a message ----

  function FinishWork(w: Work): (r: Projection)
    requires WorkRefs(w)
    ensures Refs(r) && r.stream == w.p.stream
  {
    var tag := Awaited(w.st);
    var text := w.st.pending[..|w.st.pending| - PartialTagPrefixLen(w.st.pending, tag)];
    if !w.st.insidePlan then AppendCommentary(w.p, w.st.messageId, text)
    else if w.p.completedPlan.Some? then w.p
    else
      var e := AppendPlan(w, text);
      if e.st.draft.Some? then
        var d := e.st.draft.value;
        e.p.(items := Complete(e.p.items, d.item, AssistantItem, d.text, Commentary))
      else AppendCommentary(e.p, e.st.messageId, e.st.leading)
  }

  function FinishStream(p: Projection): (r: Projection)
    requires AllRefs(p)
    ensures AllRefs(r) && r.stream.None?
  {
    if p.stream.None? then p else FinishWork(Work(p.(stream := None), p.stream.value)).(stream := None)
  }
}
