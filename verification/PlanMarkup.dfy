/** Where plan markup can and cannot reach the transcript. */
module PlanMarkup {
  import opened Text
  import opened PlanStream
  import opened PlanStreamChunks
  import opened PlanReference
  import opened ProjectorEvents

  // ---- What is held back between deltas ----

  lemma ClosingBracketEndsTags(insidePlan: bool, k: nat, j: nat)
    requires j < k < |TagAfter(insidePlan)|
    ensures TagAfter(insidePlan)[..k][j] != '>'
  {
  }

  /** Text that ends with a complete tag contributes nothing to what is held back later. */
  lemma TagsDoNotOverlap(before: string, t: string, insidePlan: bool)
    requires before == "" || before[|before| - 1] == '>'
    ensures PartialTagPrefixLen(before + t, TagAfter(insidePlan)) == PartialTagPrefixLen(t, TagAfter(insidePlan))
  {
    var tag := TagAfter(insidePlan);
    forall k: nat | |t| < k < |tag| ensures !EndsWith(before + t, tag[..k]) {
      if EndsWith(before + t, tag[..k]) {
        var s := before + t;
        assert s[|s| - k..][k - |t| - 1] == '>';
        ClosingBracketEndsTags(insidePlan, k, k - |t| - 1);
        assert false;
      }
    }
    PartialOfSuffix(before + t, tag, |before|);
    assert (before + t)[|before|..] == t;
  }

  lemma NotFoundHoldsLongest(w: Work, messageId: string, before: string)
    requires WorkRefs(w) && (before == "" || before[|before| - 1] == '>')
    requires Find(w.st.pending, Awaited(w.st)).None?
    ensures var st := Scan(w, messageId).st;
      |st.pending| == PartialTagPrefixLen(before + w.st.pending, TagAfter(st.insidePlan))
  {
    hide Emit, EmitRest, CrossTag, WorkRefs, Scan, PartialTagPrefixLen, Find;
    var t, tag := w.st.pending, Awaited(w.st);
    var end := |t| - PartialTagPrefixLen(t, tag);
    EmitRestKeeps(w, messageId, t[..end], t[end..]);
    ScanNotFound(w, messageId);
    TagsDoNotOverlap(before, t, w.st.insidePlan);
  }

  lemma {:induction false} ScanHoldsLongest(w: Work, messageId: string, before: string)
    requires WorkRefs(w) && (before == "" || before[|before| - 1] == '>')
    ensures var st := Scan(w, messageId).st;
      |st.pending| == PartialTagPrefixLen(before + w.st.pending, TagAfter(st.insidePlan))
    decreases |w.st.pending|
  {
    hide Emit, EmitRest, CrossTag, WorkRefs, Scan, PartialTagPrefixLen, Find, TagAfter;
    var t, tag := w.st.pending, Awaited(w.st);
    if Find(t, tag).Some? {
      var i := Find(t, tag).value;
      ScanFound(w, messageId, i);
      var past := before + (t[..i] + tag);
      assert t == t[..i] + tag + t[i + |tag|..];
      assert before + t == past + t[i + |tag|..];
      ScanHoldsLongest(Crossed(w, messageId, i), messageId, past);
    } else {
      NotFoundHoldsLongest(w, messageId, before);
    }
  }

  predicate HoldsLongest(st: Stream, text: string)
  {
    var k := PartialTagPrefixLen(text, Awaited(st));
    st.pending == text[|text| - k..] && st.pending == Awaited(st)[..k]
  }

  lemma SettledHoldsLongest(st: Stream, text: string)
    requires Settled(st) && |st.pending| == PartialTagPrefixLen(text, Awaited(st))
    ensures HoldsLongest(st, text)
  {
    hide PartialTagPrefixLen;
    HeldBackIsPrefix(text, Awaited(st));
  }

  lemma OneDeltaHoldsLongest(p: Projection, messageId: string, text: string)
    requires AllRefs(p) && (p.stream.None? || p.stream == Some(Fresh(messageId)))
    ensures var after := ProjectDelta(p, messageId, text);
      after.stream.Some? && HoldsLongest(after.stream.value, text)
  {
    hide Scan, PartialTagPrefixLen, WorkRefs, HoldsLongest, Settled;
    var w := SetPending(Take(p, messageId), text);
    assert "" + text == text;
    ScanHoldsLongest(w, messageId, "");
    ScanSettles(w, messageId);
    SettledHoldsLongest(Scan(w, messageId).st, text);
  }

  /** Between two deltas `pending` is exactly the longest suffix of the message text consumed so far
      that is a proper prefix of the awaited tag. */
  lemma PendingIsLongest(p: Projection, messageId: string, deltas: seq<string>)
    requires AllRefs(p) && (p.stream.None? || p.stream == Some(Fresh(messageId)))
    requires deltas != []
    ensures var text, after := Concat(deltas), ProjectDeltas(p, messageId, deltas);
      && after.stream.Some?
      && var st := after.stream.value;
         var k := PartialTagPrefixLen(text, Awaited(st));
         st.pending == text[|text| - k..] && st.pending == Awaited(st)[..k]
  {
    hide Concat, ProjectDeltas, ProjectDelta, PartialTagPrefixLen, Awaited, AllRefs;
    DeltasAreOneDelta(p, messageId, deltas);
    OneDeltaHoldsLongest(p, messageId, Concat(deltas));
  }

  // ---- Opening tags in the transcript ----

  ghost predicate Contains(s: string, pattern: string)
  {
    exists j: nat :: OccursAt(s, pattern, j)
  }

  ghost predicate Leaks(entries: seq<(Kind, string)>, from: nat)
  {
    exists j | from <= j < |entries| :: entries[j].0 == AssistantItem && Contains(entries[j].1, OPEN)
  }

  /** The message ended inside a plan block whose body opens the tag again. */
  ghost predicate EndsInReopenedPlan(pieces: seq<Piece>)
  {
    && pieces != []
    && var last := pieces[|pieces| - 1];
       last.insidePlan && Contains(last.text, OPEN)
  }

  ghost predicate CleanPieces(pieces: seq<Piece>)
  {
    forall k :: 0 <= k < |pieces| ==>
      && (pieces[k].closed <==> k + 1 < |pieces|)
      && !Contains(pieces[k].text, TagAfter(pieces[k].insidePlan))
  }

  lemma SplitIsClean(t: string, insidePlan: bool)
    ensures CleanPieces(Split(t, insidePlan))
  {
    var pieces := Split(t, insidePlan);
    forall k | 0 <= k < |pieces|
      ensures (pieces[k].closed <==> k + 1 < |pieces|) && !Contains(pieces[k].text, TagAfter(pieces[k].insidePlan))
    {
      PiecesAreClean(t, insidePlan, k);
    }
  }

  lemma BlankAt(s: string, j: nat)
    ensures Blank(s) && j < |s| ==> IsWhitespace(s[j])
  {
  }

  /** Blank text in front neither hides nor completes an opening tag. */
  lemma BlankInFront(leading: string, text: string)
    requires Blank(leading)
    ensures Contains(leading + text, OPEN) <==> Contains(text, OPEN)
    ensures Contains(leading + text, OPEN) ==> !Blank(leading + text)
  {
    var s := leading + text;
    if j: nat :| OccursAt(s, OPEN, j) {
      assert s[j] == s[j..j + |OPEN|][0] == '<';
      assert s[j] in s && !IsWhitespace(s[j]);
      BlankAt(leading, j);
      assert text[j - |leading|..j - |leading| + |OPEN|] == s[j..j + |OPEN|];
      assert OccursAt(text, OPEN, j - |leading|);
    }
    if j: nat :| OccursAt(text, OPEN, j) {
      assert s[|leading| + j..|leading| + j + |OPEN|] == text[j..j + |OPEN|];
      assert OccursAt(s, OPEN, |leading| + j);
    }
  }

  lemma LeaksAppended(entries: seq<(Kind, string)>, entry: (Kind, string), from: nat)
    requires from <= |entries|
    ensures Leaks(entries + [entry], from)
       <==> Leaks(entries, from) || (entry.0 == AssistantItem && Contains(entry.1, OPEN))
  {
    var all := entries + [entry];
    if j :| from <= j < |entries| && entries[j].0 == AssistantItem && Contains(entries[j].1, OPEN) {
      assert all[j] == entries[j];
    }
    assert all[|entries|] == entry;
  }

  lemma ExtendingKeepsLeaks(o: Outline, text: string, from: nat)
    requires OutlineOk(o) && o.open.Some? && o.open.value < from
    ensures Leaks(AddCommentary(o, text).entries, from) <==> Leaks(o.entries, from)
  {
    var i, entries, after := o.open.value, o.entries, AddCommentary(o, text).entries;
    if j :| from <= j < |entries| && entries[j].0 == AssistantItem && Contains(entries[j].1, OPEN) {
      assert after[j] == entries[j];
    }
    if j :| from <= j < |after| && after[j].0 == AssistantItem && Contains(after[j].1, OPEN) {
      assert after[j] == entries[j];
    }
  }

  /** Some block of the message is closed and holds visible text: with no plan complete before, it becomes
      the plan. */
  ghost predicate ClosesAPlan(pieces: seq<Piece>)
  {
    exists k :: 0 <= k < |pieces| && pieces[k].insidePlan && pieces[k].closed && !Blank(pieces[k].text)
  }

  lemma ClosesAPlanStep(piece: Piece, later: seq<Piece>)
    ensures ClosesAPlan([piece] + later) <==>
      (piece.insidePlan && piece.closed && !Blank(piece.text)) || ClosesAPlan(later)
  {
    var pieces := [piece] + later;
    if k :| 0 <= k < |later| && later[k].insidePlan && later[k].closed && !Blank(later[k].text) {
      assert pieces[k + 1] == later[k];
    }
    if k :| 0 <= k < |pieces| && pieces[k].insidePlan && pieces[k].closed && !Blank(pieces[k].text) {
      assert k == 0 || later[k - 1] == pieces[k];
    }
    assert pieces[0] == piece;
  }

  /** The run has no plan after the message if and only if it had none before and the message closes none. */
  lemma {:induction false} NoPlanAfterIff(o: Outline, pieces: seq<Piece>, leading: string)
    requires OutlineOk(o) && Blank(leading) && CleanPieces(pieces)
    ensures Lay(o, pieces, leading).plan.None? <==> o.plan.None? && !ClosesAPlan(pieces)
    decreases |pieces|
  {
    hide Blank, Contains;
    if pieces == [] {
    } else if o.plan.Some? {
      PlanStays(o, pieces, leading);
    } else {
      var piece, later := pieces[0], pieces[1..];
      var body := leading + piece.text;
      assert CleanPieces(later);
      assert pieces == [piece] + later;
      ClosesAPlanStep(piece, later);
      BlankIffBothBlank(leading, piece.text);
      if !piece.closed {
        assert later == [];
      } else if !piece.insidePlan {
        NoPlanAfterIff(AddCommentary(o, piece.text).(open := None), later, leading);
      } else if Blank(body) {
        NoPlanAfterIff(o, later, body);
      } else {
        var next := o.(entries := o.entries + [(PlanItem, body)], plan := Some(body));
        PlanStays(next, later, "");
      }
    }
  }

  lemma {:induction false} LayLeaks(o: Outline, pieces: seq<Piece>, leading: string, from: nat)
    requires OutlineOk(o) && (o.open.Some? ==> o.open.value < from) && from <= |o.entries|
    requires Blank(leading) && CleanPieces(pieces)
    ensures var r := Lay(o, pieces, leading);
      Leaks(r.entries, from) <==> Leaks(o.entries, from) || (EndsInReopenedPlan(pieces) && r.plan.None?)
    decreases |pieces|
  {
    hide Leaks, Contains, Blank;
    if pieces != [] {
      var piece, body := pieces[0], leading + pieces[0].text;
      var later := pieces[1..];
      assert CleanPieces(later);
      assert later != [] ==> later[|later| - 1] == pieces[|pieces| - 1];
      LeaksAppended(o.entries, (AssistantItem, piece.text), from);
      if !piece.insidePlan {
        if o.open.Some? {
          ExtendingKeepsLeaks(o, piece.text, from);
        }
        if piece.closed {
          LayLeaks(AddCommentary(o, piece.text).(open := None), later, leading, from);
        }
      } else if o.plan.Some? {
        PlanStays(o, pieces, leading);
        if piece.closed {
          LayLeaks(o, later, leading, from);
        }
      } else if piece.closed {
        if Blank(body) {
          LayLeaks(o, later, body, from);
        } else {
          LeaksAppended(o.entries, (PlanItem, body), from);
          BlankEmpty();
          LayLeaks(o.(entries := o.entries + [(PlanItem, body)], plan := Some(body)), later, "", from);
        }
      } else {
        BlankInFront(leading, piece.text);
        LeaksAppended(o.entries, (AssistantItem, body), from);
        if o.open.Some? {
          ExtendingKeepsLeaks(o, body, from);
        }
      }
    }
  }

  lemma BlankEmpty()
    ensures Blank("")
  {
  }

  lemma {:induction false} PlanStays(o: Outline, pieces: seq<Piece>, leading: string)
    requires OutlineOk(o) && o.plan.Some?
    ensures Lay(o, pieces, leading).plan == o.plan
    decreases |pieces|
  {
    if pieces != [] && pieces[0].closed {
      if pieces[0].insidePlan {
        PlanStays(o, pieces[1..], leading);
      } else {
        PlanStays(AddCommentary(o, pieces[0].text).(open := None), pieces[1..], leading);
      }
    }
  }

  /** The message that leaks: it ends inside a block that opens the tag again, and no block of it before that
      one was a plan. */
  ghost predicate RepeatsOpeningTag(text: string)
  {
    var pieces := Split(text, false);
    EndsInReopenedPlan(pieces) && !ClosesAPlan(pieces)
  }

  lemma LayoutLeaksIff(o: Outline, text: string)
    requires OutlineOk(o)
    ensures Leaks(Lay(o, Split(text, false), "").entries, |o.entries|) <==> o.plan.None? && RepeatsOpeningTag(text)
  {
    hide Leaks, Contains, Split, Lay;
    SplitIsClean(text, false);
    BlankEmpty();
    NothingLeaksYet(o.entries);
    LayLeaks(o, Split(text, false), "", |o.entries|);
    NoPlanAfterIff(o, Split(text, false), "");
  }

  lemma NothingLeaksYet(entries: seq<(Kind, string)>)
    ensures !Leaks(entries, |entries|)
  {
  }

  // ---- What becomes of the items there were ----

  /** The text a message adds to the entry that is open for it: what stands before its first tag. */
  function FirstSaid(text: string): string
  {
    Split(text, false)[0].text
  }

  lemma {:induction false} LayKeepsClosedEntries(o: Outline, pieces: seq<Piece>, leading: string, j: nat)
    requires OutlineOk(o) && j < |o.entries| && o.open != Some(j)
    ensures j < |Lay(o, pieces, leading).entries| && Lay(o, pieces, leading).entries[j] == o.entries[j]
    decreases |pieces|
  {
    hide Blank;
    if pieces != [] && pieces[0].closed {
      var piece, body, later := pieces[0], leading + pieces[0].text, pieces[1..];
      if !piece.insidePlan {
        LayKeepsClosedEntries(AddCommentary(o, piece.text).(open := None), later, leading, j);
      } else if o.plan.Some? {
        LayKeepsClosedEntries(o, later, leading, j);
      } else if Blank(body) {
        LayKeepsClosedEntries(o, later, body, j);
      } else {
        LayKeepsClosedEntries(o.(entries := o.entries + [(PlanItem, body)], plan := Some(body)), later, "", j);
      }
    }
  }

  lemma LayExtendsTheOpenEntry(o: Outline, text: string, i: nat)
    requires OutlineOk(o) && o.open == Some(i)
    ensures var r := Lay(o, Split(text, false), "");
      i < |r.entries| && r.entries[i] == (o.entries[i].0, o.entries[i].1 + FirstSaid(text))
  {
    hide Find, PartialTagPrefixLen;
    SplitStep(text, false);
    hide Split;
    var pieces := Split(text, false);
    assert o.entries[i].1 + "" == o.entries[i].1;
    if pieces[0].closed {
      LayKeepsClosedEntries(AddCommentary(o, pieces[0].text).(open := None), pieces[1..], "", i);
    }
  }

  predicate OpenFor(p: Projection, messageId: string, i: nat)
  {
    p.openAssistant.Some? && p.openAssistant.value.messageId == messageId && p.openAssistant.value.item == i
  }

  /** A message leaves the text of every item there was as it is, except that the assistant item still open for
      it grows by what stands before its first tag. */
  lemma OldItemsAfterMessage(p: Projection, messageId: string, deltas: seq<string>, i: nat)
    requires AllRefs(p) && (p.stream.None? || p.stream == Some(Fresh(messageId))) && i < |p.items|
    ensures var items := AfterMessage(p, messageId, deltas).items;
      && i < |items| && items[i].kind == p.items[i].kind
      && items[i].text == if OpenFor(p, messageId, i) then p.items[i].text + FirstSaid(Concat(deltas))
                          else p.items[i].text
  {
    hide AfterMessage, Split, Lay, Concat, FirstSaid;
    StreamEqualsBatch(p, messageId, deltas);
    var o, text := View(p, messageId), Concat(deltas);
    if OpenFor(p, messageId, i) {
      LayExtendsTheOpenEntry(o, text, i);
    } else {
      LayKeepsClosedEntries(o, Split(text, false), "", i);
    }
    assert Entries(p.items)[i] == (p.items[i].kind, p.items[i].text);
    ItemBehindEntry(AfterMessage(p, messageId, deltas).items, i);
  }

  lemma ItemBehindEntry(items: seq<Item>, i: nat)
    ensures i < |Entries(items)| ==> i < |items| && Entries(items)[i] == (items[i].kind, items[i].text)
  {
  }

  /** The item is the message's own: created by it, or open for it when it began. */
  predicate Writes(p: Projection, messageId: string, i: nat)
  {
    i >= |p.items| || OpenFor(p, messageId, i)
  }

  /** The two ways an opening tag gets through: the text repeats it in a block that does not end, before any plan
      was complete; or it forms across the joint of the open item's text and what the message first says. */
  ghost predicate LetsATagThrough(p: Projection, messageId: string, text: string)
  {
    || (p.completedPlan.None? && RepeatsOpeningTag(text))
    || (exists i :: 0 <= i < |p.items| && OpenFor(p, messageId, i) && Contains(p.items[i].text + FirstSaid(text), OPEN))
  }

  /** For every message and every cut of it: an opening tag ends up in an assistant item that the message writes
      to if and only if it gets through in one of the two ways. */
  lemma OpeningTagLeaksIff(p: Projection, messageId: string, deltas: seq<string>)
    requires AllRefs(p) && (p.stream.None? || p.stream == Some(Fresh(messageId)))
    ensures var items := AfterMessage(p, messageId, deltas).items;
      (exists j :: 0 <= j < |items| && Writes(p, messageId, j)
                   && items[j].kind == AssistantItem && Contains(items[j].text, OPEN))
      <==> LetsATagThrough(p, messageId, Concat(deltas))
  {
    hide AfterMessage, Contains, RepeatsOpeningTag, Split, Lay, Concat, FirstSaid;
    var items, text := AfterMessage(p, messageId, deltas).items, Concat(deltas);
    NewItemsLeakIff(p, messageId, deltas);
    if i :| 0 <= i < |p.items| && OpenFor(p, messageId, i) && Contains(p.items[i].text + FirstSaid(text), OPEN) {
      OldItemsAfterMessage(p, messageId, deltas, i);
      assert Writes(p, messageId, i);
    }
    if j :| |p.items| <= j < |items| && items[j].kind == AssistantItem && Contains(items[j].text, OPEN) {
      assert Writes(p, messageId, j);
    }
    if j :| 0 <= j < |items| && Writes(p, messageId, j)
            && items[j].kind == AssistantItem && Contains(items[j].text, OPEN) {
      if j < |p.items| {
        OldItemsAfterMessage(p, messageId, deltas, j);
      }
    }
  }

  /** Among the items the message creates only the first way shows. */
  lemma NewItemsLeakIff(p: Projection, messageId: string, deltas: seq<string>)
    requires AllRefs(p) && (p.stream.None? || p.stream == Some(Fresh(messageId)))
    ensures var items := AfterMessage(p, messageId, deltas).items;
      (exists j :: |p.items| <= j < |items| && items[j].kind == AssistantItem && Contains(items[j].text, OPEN))
      <==> p.completedPlan.None? && RepeatsOpeningTag(Concat(deltas))
  {
    hide AfterMessage, Contains, RepeatsOpeningTag, Split, Lay, Concat, Refs;
    StreamEqualsBatch(p, messageId, deltas);
    LayoutLeaksIff(View(p, messageId), Concat(deltas));
    var items := AfterMessage(p, messageId, deltas).items;
    ItemsLeakIff(items, |p.items|);
  }

  lemma ItemsLeakIff(items: seq<Item>, from: nat)
    ensures Leaks(Entries(items), from) <==>
      exists j :: from <= j < |items| && items[j].kind == AssistantItem && Contains(items[j].text, OPEN)
  {
    hide Contains;
    var entries := Entries(items);
    if j :| from <= j < |items| && items[j].kind == AssistantItem && Contains(items[j].text, OPEN) {
      assert entries[j].0 == AssistantItem;
    }
  }

  /** The text of an unterminated block that repeats the opening tag is one piece to its end. */
  lemma ReopenedBlockIsOnePiece()
    ensures Split("a" + OPEN, true) == [Piece(true, "a" + OPEN, false)]
  {
    hide Find, PartialTagPrefixLen;
    var body := "a" + OPEN;
    forall j: nat ensures !OccursAt(body, CLOSE, j) {
      if j == 0 {
        assert body[0..|CLOSE|][0] == 'a' != CLOSE[0];
      }
    }
    var k := PartialTagPrefixLen(body, CLOSE);
    HeldBackIsPrefix(body, CLOSE);
    if k > 0 {
      ClosingBracketEndsTags(true, k, k - 1);
      assert false;
    }
    assert body[..|body| - 0] == body;
  }

  /** The family is not empty: an unterminated block that repeats the opening tag, however it is delivered. */
  lemma OpeningTagCanLeak(messageId: string, deltas: seq<string>)
    requires Concat(deltas) == OPEN + ("a" + OPEN)
    ensures var items := AfterMessage(EMPTY, messageId, deltas).items;
      exists j :: 0 <= j < |items| && items[j].kind == AssistantItem && Contains(items[j].text, OPEN)
  {
    hide AfterMessage, Concat, Contains, RepeatsOpeningTag;
    TheBlockRepeatsItsTag();
    NewItemsLeakIff(EMPTY, messageId, deltas);
  }

  lemma TheBlockRepeatsItsTag()
    ensures RepeatsOpeningTag(OPEN + ("a" + OPEN))
  {
    hide Find, PartialTagPrefixLen, Split;
    var body := "a" + OPEN;
    var text := OPEN + body;
    assert OccursAt(text, OPEN, 0);
    assert text[0 + |OPEN|..] == body && text[..0] == "";
    SplitStep(text, false);
    ReopenedBlockIsOnePiece();
    assert Split(text, false) == [Piece(false, "", true), Piece(true, body, false)];
    assert body[1..1 + |OPEN|] == OPEN;
    assert OccursAt(body, OPEN, 1);
  }

  // ---- Across two messages of one id ----

  /** A message without tag says its text, but for what is held back at its end. */
  lemma MessageWithoutTag(p: Projection, messageId: string, text: string)
    requires AllRefs(p) && p.stream == Some(Fresh(messageId)) && Find(text, OPEN).None?
    ensures var said := text[..|text| - PartialTagPrefixLen(text, OPEN)];
      AfterMessage(p, messageId, [text]) == AppendCommentary(p.(stream := None), messageId, said)
  {
    hide PartialTagPrefixLen, Find, Scan, AppendCommentary, AfterMessage, Refs;
    AfterOneDelta(p, messageId, text);
    var k := PartialTagPrefixLen(text, OPEN);
    var said, held := text[..|text| - k], text[|text| - k..];
    var w := SetPending(Take(p, messageId), text);
    assert "" + text == text;
    ScanNotFound(w, messageId);
    HeldBackOfHeldBack(text, OPEN);
    assert held[..0] == "";
    AssistantKeepsTheRest(AppendCommentary(p.(stream := None), messageId, said), messageId, "", Commentary);
    AssistantKeepsTheRest(p.(stream := None), messageId, said, Commentary);
  }

  /** What is held back is held back as a whole. */
  lemma HeldBackOfHeldBack(text: string, tag: string)
    requires |tag| > 0
    ensures var k := PartialTagPrefixLen(text, tag); PartialTagPrefixLen(text[|text| - k..], tag) == k
  {
    hide PartialTagPrefixLen;
    var k := PartialTagPrefixLen(text, tag);
    var held := text[|text| - k..];
    HeldBackIsPrefix(text, tag);
    assert held == tag[..k];
    EndsWithItself(held);
    LongerIsNoEnd(held, tag);
    PartialIsUnique(held, tag, k);
  }

  lemma EndsWithItself(s: string)
    ensures EndsWith(s, s)
  {
  }

  lemma LongerIsNoEnd(s: string, tag: string)
    ensures forall j: nat :: |s| < j < |tag| ==> !EndsWith(s, tag[..j])
  {
  }

  const FIRST_HALF := "<<proposed_"
  const SECOND_HALF := "proposed_plan>"

  lemma FirstHalfHoldsNoTag()
    ensures Find(FIRST_HALF, OPEN).None? && PartialTagPrefixLen(FIRST_HALF, OPEN) == 10
  {
    hide Find, PartialTagPrefixLen;
    assert |FIRST_HALF| == 11 && |OPEN| == 15;
    assert FIRST_HALF[1..] == OPEN[..10];
    forall j: nat | 10 < j < |OPEN| ensures !EndsWith(FIRST_HALF, OPEN[..j]) {
      if j == 11 {
        assert FIRST_HALF[1] == '<' != OPEN[..11][1];
      }
    }
    PartialIsUnique(FIRST_HALF, OPEN, 10);
  }

  lemma SecondHalfHoldsNoTag()
    ensures Find(SECOND_HALF, OPEN).None? && PartialTagPrefixLen(SECOND_HALF, OPEN) == 0
  {
    hide Find, PartialTagPrefixLen;
    assert |SECOND_HALF| == 14 && |OPEN| == 15;
    forall j: nat | 0 < j < |OPEN| ensures !EndsWith(SECOND_HALF, OPEN[..j]) {
      ClosingBracketEndsTags(false, j, j - 1);
      assert SECOND_HALF[13] == '>';
    }
    PartialIsUnique(SECOND_HALF, OPEN, 0);
  }

  /** The projection whose one item is open for the message and holds `text`. */
  function Saying(messageId: string, text: string): Projection
  {
    Projection([Item(AssistantItem, InProgress, text, Commentary)],
               Some(Assistant(0, messageId, text, Commentary)), None, None, false, None, None)
  }

  lemma SayingStarts(messageId: string, text: string)
    requires text != ""
    ensures AppendCommentary(EMPTY, messageId, text) == Saying(messageId, text)
  {
    assert StartAssistant(EMPTY, messageId, Commentary) == Saying(messageId, "");
    hide StartAssistant;
    assert "" + text == text;
  }

  lemma SayingContinues(messageId: string, text: string, more: string)
    requires more != ""
    ensures AppendCommentary(Saying(messageId, text), messageId, more) == Saying(messageId, text + more)
  {
  }

  lemma FirstMessage(messageId: string, text: string, said: string)
    requires Find(text, OPEN).None? && said == text[..|text| - PartialTagPrefixLen(text, OPEN)] && said != ""
    ensures AfterMessage(EMPTY.(stream := Some(Fresh(messageId))), messageId, [text])
            == Saying(messageId, said)
  {
    hide Find, PartialTagPrefixLen, AfterMessage, FinishStream, AppendCommentary;
    var started := EMPTY.(stream := Some(Fresh(messageId)));
    assert started.(stream := None) == EMPTY;
    MessageWithoutTag(started, messageId, text);
    SayingStarts(messageId, said);
  }

  lemma NextMessage(messageId: string, was: string, text: string, said: string)
    requires Find(text, OPEN).None? && said == text[..|text| - PartialTagPrefixLen(text, OPEN)] && said != ""
    ensures AfterMessage(Saying(messageId, was).(stream := Some(Fresh(messageId))), messageId, [text])
            == Saying(messageId, was + said)
  {
    hide Find, PartialTagPrefixLen, AfterMessage, FinishStream, AppendCommentary;
    var started := Saying(messageId, was).(stream := Some(Fresh(messageId)));
    assert started.(stream := None) == Saying(messageId, was);
    MessageWithoutTag(started, messageId, text);
    SayingContinues(messageId, was, said);
  }

  lemma SaidAndDone(messageId: string, text: string)
    ensures CompleteAssistant(Saying(messageId, text), Commentary).items
            == [Item(AssistantItem, Completed, text, Commentary)]
  {
  }

  function TwoMessages(messageId: string, phase: Phase, first: string, second: string): seq<Event>
  {
    [MessageStarted(messageId, phase), MessageDelta(messageId, first),
     MessageStarted(messageId, phase), MessageDelta(messageId, second),
     MessageCompleted(messageId)]
  }

  /** The run, event by event. */
  lemma EventByEvent(messageId: string, phase: Phase, first: string, second: string)
    ensures var started := FinishStream(EMPTY).(stream := Some(Fresh(messageId)));
      var again := FinishStream(ProjectDelta(started, messageId, first)).(stream := Some(Fresh(messageId)));
      Run(EMPTY, PlanMode, TwoMessages(messageId, phase, first, second))
      == CompleteAssistant(FinishStream(ProjectDelta(again, messageId, second)), Commentary)
  {
    hide FinishStream, ProjectDelta, CompleteAssistant, Refs;
    var events := TwoMessages(messageId, phase, first, second);
    assert events[..4] == events[..3] + [events[3]] && events[..3] == events[..2] + [events[2]];
    assert events[..2] == events[..1] + [events[1]] && events[..1] == [] + [events[0]];
    assert events == events[..4] + [events[4]];
    RunNothing(EMPTY, PlanMode);
    RunSnoc(EMPTY, PlanMode, [], events[0]);
    RunSnoc(EMPTY, PlanMode, events[..1], events[1]);
    RunSnoc(EMPTY, PlanMode, events[..2], events[2]);
    RunSnoc(EMPTY, PlanMode, events[..3], events[3]);
    RunSnoc(EMPTY, PlanMode, events[..4], events[4]);
  }

  lemma RunOfTwoMessages(messageId: string, phase: Phase, first: string, second: string)
    ensures var started := FinishStream(EMPTY).(stream := Some(Fresh(messageId)));
      var again := AfterMessage(started, messageId, [first]).(stream := Some(Fresh(messageId)));
      Run(EMPTY, PlanMode, TwoMessages(messageId, phase, first, second))
      == CompleteAssistant(AfterMessage(again, messageId, [second]), Commentary)
  {
    hide AfterMessage, FinishStream, ProjectDelta, CompleteAssistant, Run;
    var started := FinishStream(EMPTY).(stream := Some(Fresh(messageId)));
    AfterOneDelta(started, messageId, first);
    AfterOneDelta(AfterMessage(started, messageId, [first]).(stream := Some(Fresh(messageId))), messageId, second);
    EventByEvent(messageId, phase, first, second);
  }

  /** The text is said up to what is held back at its end. */
  predicate Says(text: string, said: string)
  {
    Find(text, OPEN).None? && said == text[..|text| - PartialTagPrefixLen(text, OPEN)] && said != ""
  }

  lemma TwoMessagesSay(messageId: string, phase: Phase, first: string, second: string, x: string, y: string)
    requires Says(first, x) && Says(second, y)
    ensures Run(EMPTY, PlanMode, TwoMessages(messageId, phase, first, second)).items
            == [Item(AssistantItem, Completed, x + y, Commentary)]
  {
    NothingToFinish();
    hide Find, PartialTagPrefixLen, AfterMessage, FinishStream, AppendCommentary, Run, CompleteAssistant, Saying;
    FirstMessage(messageId, first, x);
    NextMessage(messageId, x, second, y);
    RunOfTwoMessages(messageId, phase, first, second);
    SaidAndDone(messageId, x + y);
  }

  /** The second way happens: finishing the first message drops what it held back and leaves its item open at
      "<"; the next message of the same id completes the tag in it. */
  lemma OpeningTagCanFormAcrossMessages(messageId: string, phase: Phase)
    ensures Run(EMPTY, PlanMode, TwoMessages(messageId, phase, FIRST_HALF, SECOND_HALF)).items
            == [Item(AssistantItem, Completed, OPEN, Commentary)]
  {
    HalvesSay();
    hide *;
    TwoMessagesSay(messageId, phase, FIRST_HALF, SECOND_HALF, "<", SECOND_HALF);
  }

  lemma HalvesSay()
    ensures Says(FIRST_HALF, "<") && Says(SECOND_HALF, SECOND_HALF) && "<" + SECOND_HALF == OPEN
  {
    FirstHalfHoldsNoTag();
    SecondHalfHoldsNoTag();
    hide Find, PartialTagPrefixLen;
    assert FIRST_HALF[..1] == "<" && SECOND_HALF[..14] == SECOND_HALF;
  }

  lemma NothingToFinish()
    ensures FinishStream(EMPTY) == EMPTY
  {
  }
}
