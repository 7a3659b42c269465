/** A one-pass reference for one model message: split the whole text at its tags, then lay the pieces
    out as transcript items. The streaming projector agrees with it for every text and every cut. */
module PlanReference {
  import opened Text
  import opened PlanStream
  import opened PlanStreamChunks

  // ---- Splitting a text at its tags ----

  /** A piece of a message. `closed` says that the tag ending the piece was found. */
  datatype Piece = Piece(insidePlan: bool, text: string, closed: bool)

  function TagAfter(insidePlan: bool): (tag: string)
    ensures |tag| > 0
  {
    if insidePlan then CLOSE else OPEN
  }

  function Split(t: string, insidePlan: bool): (pieces: seq<Piece>)
    decreases |t|
  {
    var tag := TagAfter(insidePlan);
    match Find(t, tag)
    case Some(i) => [Piece(insidePlan, t[..i], true)] + Split(t[i + |tag|..], !insidePlan)
    case None => [Piece(insidePlan, t[..|t| - PartialTagPrefixLen(t, tag)], false)]
  }

  function Print(pieces: seq<Piece>): string
  {
    if pieces == [] then ""
    else pieces[0].text + (if pieces[0].closed then TagAfter(pieces[0].insidePlan) else "") + Print(pieces[1..])
  }

  /** The well-formed splits: pieces alternate, exactly the last one is open, no piece contains the
      tag that would end it (not even across its own end), and nothing in the last one is still
      waiting to become a tag. */
  ghost predicate WellFormed(pieces: seq<Piece>, insidePlan: bool)
  {
    && pieces != []
    && pieces[0].insidePlan == insidePlan
    && (pieces[0].closed <==> |pieces| > 1)
    && (if |pieces| > 1
        then Find(pieces[0].text + TagAfter(insidePlan), TagAfter(insidePlan)) == Some(|pieces[0].text|)
             && WellFormed(pieces[1..], !insidePlan)
        else Find(pieces[0].text, TagAfter(insidePlan)).None?
             && PartialTagPrefixLen(pieces[0].text, TagAfter(insidePlan)) == 0)
  }

  lemma HeldBackIsPrefix(t: string, tag: string)
    requires |tag| > 0
    ensures var k := PartialTagPrefixLen(t, tag); t == t[..|t| - k] + tag[..k]
  {
  }

  /** The tag the message was waiting for when it ended. */
  function LastAwaited(t: string, insidePlan: bool): (tag: string)
    ensures |tag| > 0
    decreases |t|
  {
    var tag := TagAfter(insidePlan);
    match Find(t, tag)
    case Some(i) => LastAwaited(t[i + |tag|..], !insidePlan)
    case None => tag
  }

  lemma PrintStep(piece: Piece, later: seq<Piece>)
    ensures Print([piece] + later)
         == piece.text + (if piece.closed then TagAfter(piece.insidePlan) else "") + Print(later)
  {
    assert ([piece] + later)[1..] == later;
  }

  /** `t` is `whole` followed by a proper prefix of `tag`. */
  ghost predicate CutShort(t: string, whole: string, tag: string)
  {
    exists k: nat | k < |tag| :: t == whole + tag[..k]
  }

  lemma LastPiecePrints(t: string, insidePlan: bool)
    requires Find(t, TagAfter(insidePlan)).None?
    ensures CutShort(t, Print(Split(t, insidePlan)), TagAfter(insidePlan))
  {
    hide TagAfter, Find, EndsWith, Print;
    var tag := TagAfter(insidePlan);
    var k := PartialTagPrefixLen(t, tag);
    HeldBackIsPrefix(t, tag);
    var pieces := Split(t, insidePlan);
    PrintStep(pieces[0], []);
    PrintNothing();
    assert pieces == [pieces[0]] + [];
    assert Print(pieces) == t[..|t| - k];
  }

  lemma CutShortLater(first: string, rest: string, whole: string, tag: string)
    requires CutShort(rest, whole, tag)
    ensures CutShort(first + rest, first + whole, tag)
  {
    var k: nat :| k < |tag| && rest == whole + tag[..k];
    assert first + rest == first + whole + tag[..k];
  }

  /** Splitting loses only the held-back suffix: the text is its printed pieces followed by a proper
      prefix of the tag awaited at its end. */
  lemma {:induction false} SplitPrints(t: string, insidePlan: bool)
    ensures CutShort(t, Print(Split(t, insidePlan)), LastAwaited(t, insidePlan))
    decreases |t|
  {
    hide TagAfter, Find, PartialTagPrefixLen, EndsWith, Print, CutShort;
    var tag := TagAfter(insidePlan);
    if Find(t, tag).Some? {
      var i := Find(t, tag).value;
      var rest := t[i + |tag|..];
      SplitPrints(rest, !insidePlan);
      PrintStep(Piece(insidePlan, t[..i], true), Split(rest, !insidePlan));
      CutShortLater(t[..i] + tag, rest, Print(Split(rest, !insidePlan)), LastAwaited(rest, !insidePlan));
      assert t == t[..i] + tag + rest;
    } else {
      LastPiecePrints(t, insidePlan);
    }
  }

  lemma PrintNothing()
    ensures Print([]) == ""
  {
  }

  /** A piece never contains the tag that ends its kind: no opening tag in commentary, no closing tag
      in a plan body. */
  lemma {:induction false} PiecesAreClean(t: string, insidePlan: bool, k: nat)
    requires k < |Split(t, insidePlan)|
    ensures var piece := Split(t, insidePlan)[k];
      && piece.insidePlan == (insidePlan == (k % 2 == 0))
      && (piece.closed <==> k + 1 < |Split(t, insidePlan)|)
      && forall j: nat :: !OccursAt(piece.text, TagAfter(piece.insidePlan), j)
    decreases |t|
  {
    hide TagAfter, Find, PartialTagPrefixLen, EndsWith;
    var tag := TagAfter(insidePlan);
    var pieces := Split(t, insidePlan);
    if Find(t, tag).Some? && k > 0 {
      PiecesAreClean(t[Find(t, tag).value + |tag|..], !insidePlan, k - 1);
    } else {
      var n := |pieces[0].text|;
      forall j: nat ensures !OccursAt(t[..n], tag, j) {
        if OccursAt(t[..n], tag, j) {
          OccursInPrefix(t, n, tag, j);
        }
      }
    }
  }

  lemma OccursInPrefix(t: string, n: nat, tag: string, j: nat)
    ensures n <= |t| && OccursAt(t[..n], tag, j) ==> OccursAt(t, tag, j) && j + |tag| <= n
  {
    if n <= |t| && OccursAt(t[..n], tag, j) {
      assert t[j..j + |tag|] == t[..n][j..j + |tag|];
    }
  }

  /** What the reference reads in the printed form of some pieces. */
  function ReadBack(pieces: seq<Piece>, insidePlan: bool): seq<Piece>
  {
    Split(Print(pieces), insidePlan)
  }

  /** A well-formed split is recovered from its printed form: the reference is the only way to read a
      message. */
  lemma {:induction false} SplitReadsWhatWasPrinted(pieces: seq<Piece>, insidePlan: bool)
    requires WellFormed(pieces, insidePlan)
    ensures ReadBack(pieces, insidePlan) == pieces
    decreases |pieces|
  {
    hide TagAfter, Find, PartialTagPrefixLen, EndsWith;
    var tag := TagAfter(insidePlan);
    var first := pieces[0].text;
    if |pieces| > 1 {
      var rest := Print(pieces[1..]);
      SplitReadsWhatWasPrinted(pieces[1..], !insidePlan);
      FindIgnoresWhatFollows(first + tag, rest, tag);
      assert Print(pieces)[..|first|] == first && Print(pieces)[|first| + |tag|..] == rest;
    } else {
      assert pieces[1..] == [] && Print(pieces) == first;
      assert first[..|first|] == first;
    }
  }

  // ---- Laying the pieces out ----

  /** What a reader of the transcript sees: kinds and texts in order; `open` is the entry that further
      commentary of this message extends. */
  datatype Outline = Outline(entries: seq<(Kind, string)>, open: Option<nat>, plan: Option<string>)

  predicate OutlineOk(o: Outline)
  {
    o.open.Some? ==> o.open.value < |o.entries|
  }

  function AddCommentary(o: Outline, text: string): (r: Outline)
    requires OutlineOk(o)
    ensures OutlineOk(r)
  {
    if text == "" then o
    else if o.open.Some? then
      o.(entries := o.entries[o.open.value := (o.entries[o.open.value].0, o.entries[o.open.value].1 + text)])
    else o.(entries := o.entries + [(AssistantItem, text)], open := Some(|o.entries|))
  }

  /** Lays out the pieces of one message. `leading` is blank text kept from earlier blocks of the same
      message that held nothing else. */
  function Lay(o: Outline, pieces: seq<Piece>, leading: string): (r: Outline)
    requires OutlineOk(o)
    ensures OutlineOk(r)
    decreases |pieces|
  {
    if pieces == [] then o else
    var piece, body := pieces[0], leading + pieces[0].text;
    if !piece.insidePlan then
      var said := AddCommentary(o, piece.text);
      if piece.closed then Lay(said.(open := None), pieces[1..], leading) else said
    else if o.plan.Some? then
      if piece.closed then Lay(o, pieces[1..], leading) else o
    else if piece.closed then
      if Blank(body) then Lay(o, pieces[1..], body)
      else Lay(o.(entries := o.entries + [(PlanItem, body)], plan := Some(body)), pieces[1..], "")
    else if Blank(body) then AddCommentary(o, body)
    else o.(entries := o.entries + [(AssistantItem, body)])
  }

  // ---- The projector lays out the reference ----

  function Entries(items: seq<Item>): (r: seq<(Kind, string)>)
    ensures |r| == |items|
    ensures forall i :: 0 <= i < |items| ==> r[i] == (items[i].kind, items[i].text)
  {
    seq(|items|, i requires 0 <= i < |items| => (items[i].kind, items[i].text))
  }

  function View(p: Projection, messageId: string): (o: Outline)
    requires Refs(p)
    ensures OutlineOk(o)
  {
    Outline(
      Entries(p.items),
      if p.openAssistant.Some? && p.openAssistant.value.messageId == messageId
      then Some(p.openAssistant.value.item) else None,
      if p.completedPlan.Some? then Some(p.completedPlan.value.text) else None)
  }

  lemma EntriesOf(items: seq<Item>, item: Item, i: nat)
    ensures Entries(items + [item]) == Entries(items) + [(item.kind, item.text)]
    ensures i < |items| ==> Entries(items[i := item]) == Entries(items)[i := (item.kind, item.text)]
  {
  }

  lemma ViewOfStart(p: Projection, messageId: string)
    requires Refs(p)
    ensures var q, o := StartAssistant(p, messageId, Commentary), View(p, messageId);
      View(q, messageId) == if o.open.Some? then o else
                            o.(entries := o.entries + [(AssistantItem, "")], open := Some(|o.entries|))
  {
    if View(p, messageId).open.None? {
      var c := CompleteAssistant(p, Commentary);
      if p.openAssistant.Some? {
        var i := p.openAssistant.value.item;
        EntriesOf(p.items, c.items[i], i);
      }
      assert Entries(c.items) == Entries(p.items);
      EntriesOf(c.items, Item(AssistantItem, InProgress, "", Commentary), 0);
    }
  }

  lemma ViewOfCommentary(p: Projection, messageId: string, text: string)
    requires Refs(p)
    ensures View(AppendCommentary(p, messageId, text), messageId) == AddCommentary(View(p, messageId), text)
  {
    hide StartAssistant;
    ViewOfStart(p, messageId);
    if text != "" {
      var q := StartAssistant(p, messageId, Commentary);
      var i := q.openAssistant.value.item;
      EntriesOf(q.items, q.items[i].(text := q.items[i].text + text), i);
      assert "" + text == text;
      assert View(p, messageId).open.None? ==>
        View(q, messageId).entries[i := (AssistantItem, text)] == View(p, messageId).entries + [(AssistantItem, text)];
    }
  }

  /** The states a message goes through when its whole text is scanned in one pass. */
  predicate BetweenPieces(w: Work, messageId: string)
  {
    && WorkRefs(w)
    && w.st.messageId == messageId
    && w.st.draft.None?
    && Blank(w.st.leading)
    && (w.st.insidePlan ==> w.p.openAssistant.None?)
  }

  lemma BlankIffBothBlank(x: string, y: string)
    ensures Blank(x + y) <==> Blank(x) && Blank(y)
  {
    forall c | c in x || c in y ensures c in x + y {}
  }

  /** Emitting a whole plan body: the draft then holds all of it, or it was blank and is kept. */
  lemma DraftHoldsBody(w: Work, text: string)
    requires WorkRefs(w) && w.st.draft.None? && Blank(w.st.leading)
    ensures var r, body := AppendPlan(w, text), w.st.leading + text;
      && (Blank(body) ==> r == w.(st := w.st.(leading := body)))
      && (!Blank(body) ==>
            && r.st == w.st.(leading := "", draft := Some(TextRef(|w.p.items|, body)))
            && r.p == w.p.(items := w.p.items + [Item(PlanItem, InProgress, body, Unknown)]))
  {
    var l := w.st.leading;
    BlankIffBothBlank(l, text);
    if text == "" {
      assert l + text == l;
    } else if !Blank(text) {
      NewDraftHoldsLeading(w);
    }
  }

  lemma NewDraftHoldsLeading(w: Work)
    requires WorkRefs(w) && w.st.draft.None?
    ensures FlushLeading(StartPlan(w))
         == Work(w.p.(items := w.p.items + [Item(PlanItem, InProgress, w.st.leading, Unknown)]),
                 w.st.(leading := "", draft := Some(TextRef(|w.p.items|, w.st.leading))))
  {
    assert "" + w.st.leading == w.st.leading;
  }

  lemma OpeningLays(w: Work, messageId: string, text: string, later: seq<Piece>)
    requires BetweenPieces(w, messageId) && !w.st.insidePlan
    ensures var r := OpenPlan(Emit(w, messageId, text));
      && BetweenPieces(r, messageId)
      && Lay(View(w.p, messageId), [Piece(false, text, true)] + later, w.st.leading)
         == Lay(View(r.p, messageId), later, r.st.leading)
  {
    hide AppendCommentary;
    ViewOfCommentary(w.p, messageId, text);
    var e := Emit(w, messageId, text);
    var r := OpenPlan(e);
    if e.p.openAssistant.Some? {
      var i := e.p.openAssistant.value.item;
      EntriesOf(e.p.items, r.p.items[i], i);
    }
    assert Entries(r.p.items) == Entries(e.p.items);
    assert ([Piece(false, text, true)] + later)[1..] == later;
    AssistantKeepsTheRest(w.p, messageId, text, Commentary);
    assert View(r.p, messageId) == AddCommentary(View(w.p, messageId), text).(open := None);
  }

  lemma ClosingLays(w: Work, messageId: string, text: string, later: seq<Piece>)
    requires BetweenPieces(w, messageId) && w.st.insidePlan
    ensures var r := ClosePlan(Emit(w, messageId, text));
      && BetweenPieces(r, messageId)
      && Lay(View(w.p, messageId), [Piece(true, text, true)] + later, w.st.leading)
         == Lay(View(r.p, messageId), later, r.st.leading)
  {
    hide AppendPlan;
    assert ([Piece(true, text, true)] + later)[1..] == later;
    if w.p.completedPlan.None? {
      DraftHoldsBody(w, text);
      var body, items := w.st.leading + text, w.p.items;
      if !Blank(body) {
        var started := Item(PlanItem, InProgress, body, Unknown);
        EntriesOf(items, started, 0);
        EntriesOf(items + [started], Item(PlanItem, Completed, body, Unknown), |items|);
        var r := ClosePlan(Emit(w, messageId, text));
        assert Entries(r.p.items) == Entries(items) + [(PlanItem, body)];
      }
    }
  }

  /** One closed piece of the text: what crossing its tag does to the view. */
  lemma CrossingLays(w: Work, messageId: string, i: nat, later: seq<Piece>)
    requires BetweenPieces(w, messageId) && Find(w.st.pending, Awaited(w.st)) == Some(i)
    ensures var r := Crossed(w, messageId, i);
      var piece := Piece(w.st.insidePlan, w.st.pending[..i], true);
      && BetweenPieces(r, messageId)
      && r.st.insidePlan == !w.st.insidePlan
      && Lay(View(w.p, messageId), [piece] + later, w.st.leading) == Lay(View(r.p, messageId), later, r.st.leading)
  {
    hide Emit, View, Lay, OpenPlan, ClosePlan, Find, Awaited;
    var text, rest := w.st.pending[..i], w.st.pending[i + |Awaited(w.st)|..];
    EmitRestKeeps(w, messageId, text, rest);
    if w.st.insidePlan {
      ClosingLays(SetPending(w, rest), messageId, text, later);
    } else {
      OpeningLays(SetPending(w, rest), messageId, text, later);
    }
  }

  /** The last, open piece of the text, and the end of the message. */
  lemma FinishLays(w: Work, messageId: string)
    requires BetweenPieces(w, messageId) && Find(w.st.pending, Awaited(w.st)).None?
    ensures var end := |w.st.pending| - PartialTagPrefixLen(w.st.pending, Awaited(w.st));
      var r := EmitRest(w, messageId, w.st.pending[..end], w.st.pending[end..]);
      var out := View(FinishWork(r), messageId);
      var ref := Lay(View(w.p, messageId), [Piece(w.st.insidePlan, w.st.pending[..end], false)], w.st.leading);
      out.entries == ref.entries && out.plan == ref.plan
  {
    var tag := Awaited(w.st);
    var end := |w.st.pending| - PartialTagPrefixLen(w.st.pending, tag);
    var text, held := w.st.pending[..end], w.st.pending[end..];
    var v := SetPending(w, held);
    var r := Emit(v, messageId, text);
    EmitRestKeeps(w, messageId, text, held);
    PartialIsUnique(held, tag, |held|);
    assert held[..0] == "";
    if !w.st.insidePlan {
      ViewOfCommentary(w.p, messageId, text);
    } else if w.p.completedPlan.None? {
      DraftHoldsBody(v, text);
      var body := w.st.leading + text;
      if Blank(body) {
        ViewOfCommentary(w.p, messageId, body);
      } else {
        assert Entries(FinishWork(r).items) == Entries(w.p.items) + [(AssistantItem, body)];
      }
    }
  }

  lemma {:induction false} ScanLays(w: Work, messageId: string)
    requires BetweenPieces(w, messageId)
    ensures var out := View(FinishWork(Scan(w, messageId)), messageId);
      var ref := Lay(View(w.p, messageId), Split(w.st.pending, w.st.insidePlan), w.st.leading);
      out.entries == ref.entries && out.plan == ref.plan
    decreases |w.st.pending|
  {
    hide Emit, EmitRest, CrossTag, FinishWork, View, Lay, WorkRefs, Scan, Crossed, Find, PartialTagPrefixLen, Split;
    var t, inside := w.st.pending, w.st.insidePlan;
    SplitStep(t, inside);
    if Find(t, Awaited(w.st)).Some? {
      var i := Find(t, Awaited(w.st)).value;
      CrossingLays(w, messageId, i, Split(t[i + |TagAfter(inside)|..], !inside));
      ScanFound(w, messageId, i);
      ScanLays(Crossed(w, messageId, i), messageId);
    } else {
      FinishLays(w, messageId);
      ScanNotFound(w, messageId);
    }
  }

  lemma SplitStep(t: string, insidePlan: bool)
    ensures var tag := TagAfter(insidePlan);
      var end := |t| - PartialTagPrefixLen(t, tag);
      match Find(t, tag)
      case Some(i) => Split(t, insidePlan) == [Piece(insidePlan, t[..i], true)] + Split(t[i + |tag|..], !insidePlan)
      case None => Split(t, insidePlan) == [Piece(insidePlan, t[..end], false)]
  {
  }

  /** Streaming is batch: whatever the cut of the message into deltas, its transcript entries and the
      completed plan are those of the reference on the whole text. */
  lemma StreamEqualsBatch(p: Projection, messageId: string, deltas: seq<string>)
    requires AllRefs(p) && (p.stream.None? || p.stream == Some(Fresh(messageId)))
    ensures var out := View(AfterMessage(p, messageId, deltas), messageId);
      var ref := Lay(View(p, messageId), Split(Concat(deltas), false), "");
      out.entries == ref.entries && out.plan == ref.plan
  {
    hide Scan, FinishWork, Lay, AfterMessage, Split, Concat;
    FinishForgetsTheCut(p, messageId, deltas);
    AfterOneDelta(p, messageId, Concat(deltas));
    var w := Take(p, messageId);
    var text := Concat(deltas);
    assert w.st.pending + text == text;
    ScanLays(SetPending(w, text), messageId);
    ScanSettles(SetPending(w, text), messageId);
  }
}
