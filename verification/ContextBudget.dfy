/** Repair of tool-call/result pairs and in-place shrinking of old tool results in a model request. */
module ContextBudget {
  import opened Text

  const EDGE_CHARS: nat := 1_024
  const MARKER := "\n[... older tool result elided by Microcompact ...]\n"
  const OMITTED := "\n[tool call omitted from transient model view: result missing or duplicated]"
  const ORPHANED := "[orphan or duplicate tool result repaired in transient model view; untrusted data]\n"
  const IMAGES_REMOVED := "\n[bounded image references retained after binary removal: "
  const SUCCEEDED := "[tool status=succeeded "
  const MAX_U32: nat := 0xFFFF_FFFF

  datatype Role = System | User | AssistantRole | Tool

  datatype Image = Image(mediaType: string, sourceLabel: string, data: string)

  /** A call is named by its id; the rest of it plays no part. */
  datatype Call = Call(id: string, rest: string)

  datatype Message = Message(
    role: Role,
    content: string,
    name: Option<string>,
    toolCallId: Option<string>,
    calls: seq<Call>,
    images: seq<Image>)

  // ---- Bounding one result ----

  function BoundedToolResult(value: string): string
  {
    if |value| <= 2 * EDGE_CHARS then value
    else value[..EDGE_CHARS] + MARKER + value[|value| - EDGE_CHARS..]
  }

  /** Bounding keeps both edges, never grows a long value beyond a fixed size, and is idempotent. */
  lemma BoundedIsIdempotent(value: string)
    ensures var b := BoundedToolResult(value);
      && BoundedToolResult(b) == b
      && |b| <= 2 * EDGE_CHARS + |MARKER|
      && (b != value ==> b[..EDGE_CHARS] == value[..EDGE_CHARS] && EndsWith(b, value[|value| - EDGE_CHARS..]))
  {
    if |value| > 2 * EDGE_CHARS {
      var b := BoundedToolResult(value);
      assert b[..EDGE_CHARS] == value[..EDGE_CHARS];
      assert b[|b| - EDGE_CHARS..] == value[|value| - EDGE_CHARS..];
    }
  }

  /** Bounding makes a text longer if and only if what it elides is shorter than the marker it puts there. */
  lemma BoundingGrowsIff(value: string)
    ensures |BoundedToolResult(value)| > |value| <==> 2 * EDGE_CHARS < |value| < 2 * EDGE_CHARS + |MARKER|
  {
  }

  // ---- Retaining one result ----

  /** How a tool result is retained depends on the tool's name and the text alone. */
  type Retention = (Option<string>, string) -> string

  const BINARY_TOOLS := ["browser", "computer", "screenshot", "capture", "image", "office", "pdf"]
  const EVIDENCE_TOOLS := ["read", "search", "exec", "command", "shell", "git", "diff", "artifact"]

  function AsciiLowercase(s: string): (r: string)
    ensures |r| == |s|
    ensures forall k :: 0 <= k < |s| ==>
      if 'A' <= s[k] <= 'Z' then r[k] as int - 'a' as int == s[k] as int - 'A' as int else r[k] == s[k]
  {
    if s == "" then ""
    else [if 'A' <= s[0] <= 'Z' then (s[0] as int + 32) as char else s[0]] + AsciiLowercase(s[1..])
  }

  predicate Mentions(name: string, tools: seq<string>)
  {
    exists tool :: tool in tools && Find(name, tool).Some?
  }

  function BinaryReference(name: string, metadata: string): string
  {
    "[bounded binary reference retained; payload removed; tool=" + name + "; metadata=" + metadata + "]"
  }

  function EvidenceHeader(name: string, metadata: string): string
  {
    "[retained tool evidence; tool=" + name + "; metadata=" + metadata + "]\n"
  }

  /** The program's own way of retaining a result; `metadata` stands for what is read out of the JSON in a text,
      if anything is. */
  function RetainedToolResult(metadata: string -> Option<string>, tool: Option<string>, value: string): string
  {
    var name := AsciiLowercase(if tool.Some? then tool.value else "unknown");
    var found := metadata(value);
    if Mentions(name, BINARY_TOOLS) then BinaryReference(name, if found.Some? then found.value else "{}")
    else if Mentions(name, EVIDENCE_TOOLS) && found.Some? then
      EvidenceHeader(name, found.value) + BoundedToolResult(value)
    else BoundedToolResult(value)
  }

  predicate NamedBehind(text: string, name: string, from: nat)
  {
    exists k: nat | k <= |text| :: k >= from && OccursAt(text, name, k)
  }

  predicate NameHolds(name: string, words: seq<string>)
  {
    exists word, at: nat | word in words && at <= |name| :: OccursAt(name, word, at)
  }

  /** What a retained text tells: of a binary tool its name and the metadata and nothing of the payload; of evidence
      with metadata those in front of the bounded text; and otherwise the bounded text alone. */
  lemma WhatIsRetained(metadata: string -> Option<string>, tool: Option<string>, value: string)
    ensures var name := AsciiLowercase(if tool.Some? then tool.value else "unknown");
      var r, found := RetainedToolResult(metadata, tool, value), metadata(value);
      if NameHolds(name, ["browser", "computer", "screenshot", "capture", "image", "office", "pdf"]) then
        && r == RetainedToolResult(_ => found, tool, "")
        && NamedBehind(r, name, 0) && NamedBehind(r, if found.Some? then found.value else "{}", |name|)
      else if NameHolds(name, ["read", "search", "exec", "command", "shell", "git", "diff", "artifact"]) && found.Some?
      then EndsWith(r, BoundedToolResult(value)) && NamedBehind(r, name, 0) && NamedBehind(r, found.value, |name|)
      else r == BoundedToolResult(value)
  {
    hide AsciiLowercase, BoundedToolResult, OccursAt;
    var name := AsciiLowercase(if tool.Some? then tool.value else "unknown");
    MentionsIff(name, BINARY_TOOLS);
    MentionsIff(name, EVIDENCE_TOOLS);
    hide Mentions, NameHolds;
    var found := metadata(value);
    BinaryNames(name, if found.Some? then found.value else "{}");
    if found.Some? {
      HeaderNames(name, found.value, BoundedToolResult(value));
    }
  }

  lemma MentionsIff(name: string, words: seq<string>)
    ensures Mentions(name, words) <==> NameHolds(name, words)
  {
    if Mentions(name, words) {
      var word :| word in words && Find(name, word).Some?;
      assert OccursAt(name, word, Find(name, word).value);
    }
  }

  lemma Stands(before: string, name: string, after: string)
    ensures NamedBehind(before + name + after, name, |before|)
  {
    var text := before + name + after;
    assert text[|before|..|before| + |name|] == name;
    assert OccursAt(text, name, |before|);
  }

  lemma StandsBehind(text: string, name: string, from: nat, more: nat)
    requires NamedBehind(text, name, more) && from <= more
    ensures NamedBehind(text, name, from)
  {
  }

  lemma BinaryNames(name: string, metadata: string)
    ensures var r := BinaryReference(name, metadata); NamedBehind(r, name, 0) && NamedBehind(r, metadata, |name|)
  {
    hide NamedBehind;
    var start, middle := "[bounded binary reference retained; payload removed; tool=", "; metadata=";
    var r := BinaryReference(name, metadata);
    assert r == start + name + (middle + metadata + "]") && r == (start + name + middle) + metadata + "]";
    Stands(start, name, middle + metadata + "]");
    Stands(start + name + middle, metadata, "]");
    StandsBehind(r, name, 0, |start|);
    StandsBehind(r, metadata, |name|, |start + name + middle|);
  }

  lemma HeaderNames(name: string, metadata: string, text: string)
    ensures var r := EvidenceHeader(name, metadata) + text;
      NamedBehind(r, name, 0) && NamedBehind(r, metadata, |name|) && EndsWith(r, text)
  {
    hide NamedBehind;
    var start, middle := "[retained tool evidence; tool=", "; metadata=";
    var r := EvidenceHeader(name, metadata) + text;
    var end := "]\n" + text;
    assert r == start + name + (middle + metadata + end) && r == (start + name + middle) + metadata + end;
    Stands(start, name, middle + metadata + end);
    Stands(start + name + middle, metadata, end);
    StandsBehind(r, name, 0, |start|);
    StandsBehind(r, metadata, |name|, |start + name + middle|);
  }

  /** A retained text is longer than what it replaces if and only if, for a binary tool, the text was shorter than
      the reference; for evidence with metadata, shorter than the header, both edges and the marker, so always when
      the text itself is kept whole; and otherwise if bounding makes it longer. */
  lemma RetainingGrowsIff(metadata: string -> Option<string>, tool: Option<string>, value: string)
    ensures var name := AsciiLowercase(if tool.Some? then tool.value else "unknown");
      var found := metadata(value);
      |RetainedToolResult(metadata, tool, value)| > |value| <==>
        if Mentions(name, BINARY_TOOLS) then
          |value| < |BinaryReference(name, if found.Some? then found.value else "{}")|
        else if Mentions(name, EVIDENCE_TOOLS) && found.Some? then
          |value| < |EvidenceHeader(name, found.value)| + 2 * EDGE_CHARS + |MARKER|
        else 2 * EDGE_CHARS < |value| < 2 * EDGE_CHARS + |MARKER|
  {
    hide Mentions, AsciiLowercase;
    BoundingGrowsIff(value);
  }

  // ---- Repair, as functions of the request ----

  predicate Answers(m: Message, id: string)
  {
    m.role == Tool && m.toolCallId == Some(id)
  }

  /** How many tool messages answer `id`. */
  function ResultCount(ms: seq<Message>, id: string): nat
  {
    if ms == [] then 0 else (if Answers(ms[0], id) then 1 else 0) + ResultCount(ms[1..], id)
  }

  /** The calls whose id satisfies `keep`, in order. */
  function Retain(calls: seq<Call>, keep: string -> bool): (r: seq<Call>)
    ensures forall c :: c in r <==> c in calls && keep(c.id)
    ensures |r| <= |calls|
  {
    if calls == [] then []
    else (if keep(calls[0].id) then [calls[0]] else []) + Retain(calls[1..], keep)
  }

  function RepairCalls(m: Message, keep: string -> bool): Message
  {
    if m.role != AssistantRole || m.calls == [] then m else
    var calls := Retain(m.calls, keep);
    m.(calls := calls, content := if calls == [] then m.content + OMITTED else m.content)
  }

  predicate Makes(m: Message, id: string)
  {
    m.role == AssistantRole && exists c :: c in m.calls && c.id == id
  }

  predicate MadeBefore(ms: seq<Message>, n: nat, id: string)
    requires n <= |ms|
  {
    exists k :: 0 <= k < n && Makes(ms[k], id)
  }

  /** Some assistant message of the request makes the call `id`. */
  predicate Called(ms: seq<Message>, id: string)
  {
    MadeBefore(ms, |ms|, id)
  }

  function RepairResult(m: Message, valid: string -> bool): Message
  {
    if m.role != Tool || (m.toolCallId.Some? && valid(m.toolCallId.value)) then m
    else m.(role := User, name := None, toolCallId := None, content := ORPHANED + BoundedToolResult(m.content))
  }

  function AnsweredOnce(ms: seq<Message>): string -> bool
  {
    id => ResultCount(ms, id) == 1
  }

  function KeptCalls(ms: seq<Message>): string -> bool
  {
    id => ResultCount(ms, id) == 1 && Called(ms, id)
  }

  /** A call survives when exactly one tool message answers it; a tool message survives when it answers
      a call that survives. */
  function Repaired(ms: seq<Message>): (r: seq<Message>)
    ensures |r| == |ms|
    ensures forall k :: 0 <= k < |ms| ==>
      r[k] == RepairResult(RepairCalls(ms[k], AnsweredOnce(ms)), KeptCalls(ms))
  {
    seq(|ms|, k requires 0 <= k < |ms| =>
      RepairResult(RepairCalls(ms[k], AnsweredOnce(ms)), KeptCalls(ms)))
  }

  /** Every call is answered by exactly one tool message, every tool message answers a call, and no two
      answer the same. */
  ghost predicate WellPaired(ms: seq<Message>)
  {
    && (forall k, c :: 0 <= k < |ms| && ms[k].role == AssistantRole && c in ms[k].calls ==> ResultCount(ms, c.id) == 1)
    && (forall k :: 0 <= k < |ms| && ms[k].role == Tool ==>
          ms[k].toolCallId.Some? && Called(ms, ms[k].toolCallId.value))
    && (forall j, k :: 0 <= j < k < |ms| && ms[j].role == Tool && ms[k].role == Tool ==>
          ms[j].toolCallId != ms[k].toolCallId)
  }

  // ---- Counting results ----

  lemma {:induction false} CountZeroIff(ms: seq<Message>, id: string)
    ensures ResultCount(ms, id) > 0 <==> exists k :: 0 <= k < |ms| && Answers(ms[k], id)
  {
    if ms != [] {
      CountZeroIff(ms[1..], id);
      if ResultCount(ms[1..], id) > 0 {
        var k :| 0 <= k < |ms[1..]| && Answers(ms[1..][k], id);
        assert Answers(ms[k + 1], id);
      }
      if k :| 0 <= k < |ms| && Answers(ms[k], id) {
        assert k == 0 || Answers(ms[1..][k - 1], id);
      }
    }
  }

  lemma {:induction false} CountTwoIfTwo(ms: seq<Message>, id: string, j: nat, k: nat)
    requires j < k < |ms| && Answers(ms[j], id) && Answers(ms[k], id)
    ensures ResultCount(ms, id) >= 2
  {
    if j == 0 {
      assert Answers(ms[1..][k - 1], id);
      CountZeroIff(ms[1..], id);
    } else {
      CountTwoIfTwo(ms[1..], id, j - 1, k - 1);
    }
  }

  lemma {:induction false} CountsAgree(a: seq<Message>, b: seq<Message>, id: string)
    requires |a| == |b| && forall k :: 0 <= k < |a| ==> (Answers(a[k], id) <==> Answers(b[k], id))
    ensures ResultCount(a, id) == ResultCount(b, id)
  {
    if a != [] {
      assert Answers(a[0], id) <==> Answers(b[0], id);
      forall k | 0 <= k < |a[1..]| ensures Answers(a[1..][k], id) <==> Answers(b[1..][k], id) {
        assert Answers(a[k + 1], id) <==> Answers(b[k + 1], id);
      }
      CountsAgree(a[1..], b[1..], id);
    }
  }

  // ---- What repair achieves ----

  lemma MakesAfterRepair(ms: seq<Message>, k: nat, id: string)
    requires k < |ms|
    ensures Makes(Repaired(ms)[k], id) <==> Makes(ms[k], id) && ResultCount(ms, id) == 1
  {
    hide ResultCount, Called, BoundedToolResult;
    var m := RepairCalls(ms[k], AnsweredOnce(ms));
    if Makes(ms[k], id) && ResultCount(ms, id) == 1 {
      var c :| c in ms[k].calls && c.id == id;
      assert c in m.calls;
    }
    if Makes(m, id) {
      var c :| c in m.calls && c.id == id;
      assert c in ms[k].calls;
    }
  }

  /** After repair a call is there if and only if it was there and answered exactly once. */
  lemma CalledAfterRepair(ms: seq<Message>, id: string)
    ensures Called(Repaired(ms), id) <==> Called(ms, id) && ResultCount(ms, id) == 1
  {
    hide Repaired, ResultCount, Makes;
    var r := Repaired(ms);
    if Called(ms, id) && ResultCount(ms, id) == 1 {
      var k :| 0 <= k < |ms| && Makes(ms[k], id);
      MakesAfterRepair(ms, k, id);
      assert Makes(r[k], id);
    }
    if Called(r, id) {
      var k :| 0 <= k < |r| && Makes(r[k], id);
      MakesAfterRepair(ms, k, id);
      assert Makes(ms[k], id);
    }
  }

  /** After repair the messages answering `id` are those that did, if the call survives, and none
      otherwise. */
  lemma CountAfterRepair(ms: seq<Message>, id: string)
    ensures ResultCount(Repaired(ms), id) == if Called(ms, id) && ResultCount(ms, id) == 1 then 1 else 0
  {
    var r := Repaired(ms);
    if Called(ms, id) && ResultCount(ms, id) == 1 {
      forall k | 0 <= k < |ms| ensures Answers(r[k], id) <==> Answers(ms[k], id) {}
      CountsAgree(r, ms, id);
    } else {
      CountZeroIff(r, id);
      forall k | 0 <= k < |r| ensures !Answers(r[k], id) {}
    }
  }

  /** Repair pairs every request, whatever it was. */
  lemma RepairPairs(ms: seq<Message>)
    ensures WellPaired(Repaired(ms))
  {
    var r := Repaired(ms);
    forall k, c | 0 <= k < |r| && r[k].role == AssistantRole && c in r[k].calls ensures ResultCount(r, c.id) == 1 {
      assert Makes(r[k], c.id);
      assert Called(r, c.id);
      CalledAfterRepair(ms, c.id);
      CountAfterRepair(ms, c.id);
    }
    forall k | 0 <= k < |r| && r[k].role == Tool
      ensures r[k].toolCallId.Some? && Called(r, r[k].toolCallId.value)
    {
      CalledAfterRepair(ms, r[k].toolCallId.value);
    }
    forall j, k | 0 <= j < k < |r| && r[j].role == Tool && r[k].role == Tool
      ensures r[j].toolCallId != r[k].toolCallId
    {
      if r[j].toolCallId == r[k].toolCallId {
        var id := r[k].toolCallId.value;
        CountTwoIfTwo(r, id, j, k);
        CountAfterRepair(ms, id);
      }
    }
  }

  lemma {:induction false} RetainAll(calls: seq<Call>, keep: string -> bool)
    requires forall c :: c in calls ==> keep(c.id)
    ensures Retain(calls, keep) == calls
  {
    if calls != [] {
      RetainAll(calls[1..], keep);
    }
  }

  /** Repair leaves a request alone if and only if it is well paired: so a second repair changes
      nothing. */
  lemma RepairedIffPaired(ms: seq<Message>)
    ensures Repaired(ms) == ms <==> WellPaired(ms)
    ensures Repaired(Repaired(ms)) == Repaired(ms)
  {
    RepairPairs(ms);
    PairedIsRepaired(Repaired(ms));
    if WellPaired(ms) {
      PairedIsRepaired(ms);
    }
  }

  lemma PairedIsRepaired(ms: seq<Message>)
    requires WellPaired(ms)
    ensures Repaired(ms) == ms
  {
    forall k | 0 <= k < |ms| ensures Repaired(ms)[k] == ms[k] {
      if ms[k].role == AssistantRole {
        RetainAll(ms[k].calls, AnsweredOnce(ms));
      } else if ms[k].role == Tool {
        var id := ms[k].toolCallId.value;
        var j :| 0 <= j < |ms| && Makes(ms[j], id);
        var c :| c in ms[j].calls && c.id == id;
      }
    }
  }

  /** Repair leaves a message alone if and only if it is not an assistant message losing a call and not
      an unpaired tool result. */
  lemma UnrepairedIff(ms: seq<Message>, k: nat)
    requires k < |ms|
    ensures Repaired(ms)[k] == ms[k] <==>
      && (ms[k].role == AssistantRole ==> forall c :: c in ms[k].calls ==> ResultCount(ms, c.id) == 1)
      && (ms[k].role == Tool ==>
            && ms[k].toolCallId.Some?
            && ResultCount(ms, ms[k].toolCallId.value) == 1 && Called(ms, ms[k].toolCallId.value))
  {
    hide ResultCount, Called, BoundedToolResult;
    var keep := AnsweredOnce(ms);
    if ms[k].role == AssistantRole {
      var kept := Retain(ms[k].calls, keep);
      if forall c :: c in ms[k].calls ==> keep(c.id) {
        RetainAll(ms[k].calls, keep);
      } else {
        assert kept != ms[k].calls;
      }
    }
  }

  /** What repair leaves of a message that stays what it is: all of its text, with a note behind it if and only if
      it is an assistant message that made calls and lost them all. */
  lemma RepairKeepsText(ms: seq<Message>, k: nat)
    requires k < |ms| && (ms[k].role == Tool ==> Repaired(ms)[k].role == Tool)
    ensures var m, r := ms[k], Repaired(ms)[k];
      var silenced := m.role == AssistantRole && m.calls != []
                      && forall c :: c in m.calls ==> ResultCount(ms, c.id) != 1;
      && r == m.(calls := r.calls, content := r.content)
      && r.content == (if silenced then m.content + OMITTED else m.content)
      && (m.role != AssistantRole ==> r.calls == m.calls)
  {
    hide ResultCount, Called, BoundedToolResult;
    var keep := AnsweredOnce(ms);
    if ms[k].role == AssistantRole && ms[k].calls != [] {
      var kept := Retain(ms[k].calls, keep);
      if kept != [] {
        assert kept[0] in ms[k].calls && keep(kept[0].id);
      }
    }
  }

  /** A tool result that repair turns into a user message is marked as untrusted in front of its text, of which
      it keeps everything up to the limit and else both edges; nothing names a call or a tool any more. */
  lemma DemotedIsLabelled(ms: seq<Message>, k: nat)
    requires k < |ms| && ms[k].role == Tool && Repaired(ms)[k].role != Tool
    ensures var m, r := ms[k], Repaired(ms)[k];
      && r == m.(role := User, name := None, toolCallId := None, content := r.content)
      && StartsWith(r.content, ORPHANED)
      && var text := r.content[|ORPHANED|..];
         if |m.content| <= 2_048 then text == m.content
         else
           && |text| == 2_048 + |MARKER| && text[..1_024] == m.content[..1_024]
           && EndsWith(text, m.content[|m.content| - 1_024..])
  {
    hide ResultCount, Called;
    var m, text := ms[k], BoundedToolResult(ms[k].content);
    assert (ORPHANED + text)[..|ORPHANED|] == ORPHANED && (ORPHANED + text)[|ORPHANED|..] == text;
    BoundedIsIdempotent(m.content);
  }

  /** Well-paired does not mean one call per result: two calls may share an id and its only answer. */
  lemma CallsMayShareAResult()
    ensures var call := Call("a", "");
      var ask := Message(AssistantRole, "", None, None, [call], []);
      var answer := Message(Tool, "", None, Some("a"), [], []);
      WellPaired([ask, ask, answer])
  {
    var call := Call("a", "");
    var ask := Message(AssistantRole, "", None, None, [call], []);
    var answer := Message(Tool, "", None, Some("a"), [], []);
    var ms := [ask, ask, answer];
    assert ms[1..] == [ask, answer] && ms[1..][1..] == [answer] && [answer][1..] == [];
    assert call in ask.calls;
    assert Makes(ms[0], "a");
    assert ResultCount(ms, "a") == ResultCount([ask, answer], "a") == ResultCount([answer], "a") == 1;
  }

  // ---- Repair in place ----

  function Saturating(n: nat): nat
  {
    if n <= MAX_U32 then n else MAX_U32
  }

  /** What repair counts at one message: the calls it dropped, or the demotion of an unpaired result. */
  function RepairsAt(m: Message, r: Message): nat
  {
    if m.role == AssistantRole then (if |r.calls| <= |m.calls| then |m.calls| - |r.calls| else 0)
    else if m.role != r.role then 1 else 0
  }

  function Repairs(ms: seq<Message>, repaired: seq<Message>): nat
    requires |ms| == |repaired|
    decreases |ms|
  {
    if ms == [] then 0 else
    var n := |ms| - 1;
    Repairs(ms[..n], repaired[..n]) + RepairsAt(ms[n], repaired[n])
  }

  lemma RepairsSnoc(ms: seq<Message>, repaired: seq<Message>, m: Message, r: Message)
    requires |ms| == |repaired|
    ensures Repairs(ms + [m], repaired + [r]) == Repairs(ms, repaired) + RepairsAt(m, r)
  {
    var n := |ms|;
    assert (ms + [m])[..n] == ms && (repaired + [r])[..n] == repaired;
  }

  lemma {:induction false} RetainFewer(calls: seq<Call>, keep: string -> bool)
    ensures |Retain(calls, keep)| == |calls| ==> Retain(calls, keep) == calls
  {
    if calls != [] {
      RetainFewer(calls[1..], keep);
    }
  }

  lemma NoRepairAtIffUnchanged(ms: seq<Message>, k: nat)
    requires k < |ms|
    ensures RepairsAt(ms[k], Repaired(ms)[k]) == 0 <==> Repaired(ms)[k] == ms[k]
  {
    hide ResultCount, Called;
    RetainFewer(ms[k].calls, AnsweredOnce(ms));
  }

  /** Nothing was counted if and only if nothing was changed. */
  lemma {:induction false} NoRepairsIffUnchanged(ms: seq<Message>, n: nat)
    requires n <= |ms|
    ensures Repairs(ms[..n], Repaired(ms)[..n]) == 0 <==> Repaired(ms)[..n] == ms[..n]
    decreases n
  {
    hide Repaired, RepairsAt, RepairResult, RepairCalls;
    var r := Repaired(ms);
    if n > 0 {
      NoRepairsIffUnchanged(ms, n - 1);
      RepairsSnoc(ms[..n - 1], r[..n - 1], ms[n - 1], r[n - 1]);
      NoRepairAtIffUnchanged(ms, n - 1);
      assert ms[..n] == ms[..n - 1] + [ms[n - 1]] && r[..n] == r[..n - 1] + [r[n - 1]];
    }
  }

  function CallsMade(ms: seq<Message>): nat
  {
    if ms == [] then 0
    else CallsMade(ms[..|ms| - 1]) + (if ms[|ms| - 1].role == AssistantRole then |ms[|ms| - 1].calls| else 0)
  }

  /** Those of the first `n` messages that were tool results and are none any more. */
  function NoLongerResults(ms: seq<Message>, r: seq<Message>, n: nat): set<nat>
    requires n <= |ms| == |r|
  {
    set k: nat | k < n && ms[k].role == Tool && r[k].role != Tool
  }

  lemma NoLongerResultsStep(ms: seq<Message>, r: seq<Message>, n: nat)
    requires n < |ms| == |r|
    ensures NoLongerResults(ms, r, 0) == {}
    ensures |NoLongerResults(ms, r, n + 1)|
         == |NoLongerResults(ms, r, n)| + (if ms[n].role == Tool && r[n].role != Tool then 1 else 0)
  {
    assert NoLongerResults(ms, r, n + 1)
        == NoLongerResults(ms, r, n) + (if ms[n].role == Tool && r[n].role != Tool then {n} else {});
  }

  lemma CallsMadeSnoc(ms: seq<Message>, m: Message)
    ensures CallsMade(ms + [m]) == CallsMade(ms) + (if m.role == AssistantRole then |m.calls| else 0)
  {
    assert (ms + [m])[..|ms|] == ms;
  }

  /** What is counted is every call that is gone and every tool result that is none any more. */
  lemma {:induction false} RepairsAreCounted(ms: seq<Message>, n: nat)
    requires n <= |ms|
    ensures var r := Repaired(ms);
      Repairs(ms[..n], r[..n]) == CallsMade(ms[..n]) - CallsMade(r[..n]) + |NoLongerResults(ms, r, n)|
    decreases n
  {
    hide Repaired, RepairResult, RepairCalls;
    var r := Repaired(ms);
    if n > 0 {
      hide Repairs, CallsMade, NoLongerResults;
      var m := n - 1;
      RepairsAreCounted(ms, m);
      RepairsSnoc(ms[..m], r[..m], ms[m], r[m]);
      CallsMadeSnoc(ms[..m], ms[m]);
      CallsMadeSnoc(r[..m], r[m]);
      assert ms[..n] == ms[..m] + [ms[m]] && r[..n] == r[..m] + [r[m]];
      RepairAtKeepsRoles(ms, m);
      NoLongerResultsStep(ms, r, m);
    }
  }

  lemma RepairAtKeepsRoles(ms: seq<Message>, k: nat)
    requires k < |ms|
    ensures var m, r := ms[k], Repaired(ms)[k];
      && (m.role == AssistantRole <==> r.role == AssistantRole) && (m.role != Tool ==> r.role == m.role)
      && |r.calls| <= |m.calls|
  {
    hide ResultCount, Called, BoundedToolResult;
  }

  method CountResults(messages: array<Message>) returns (counts: map<string, nat>)
    ensures forall id :: (if id in counts then counts[id] else 0) == ResultCount(messages[..], id)
  {
    counts := map[];
    var k := messages.Length;
    assert messages[messages.Length..] == [];
    while k > 0
      invariant 0 <= k <= messages.Length
      invariant forall id :: (if id in counts then counts[id] else 0) == ResultCount(messages[k..], id)
    {
      k := k - 1;
      var m := messages[k];
      assert messages[k..][0] == m && messages[k..][1..] == messages[k + 1..];
      if m.role == Tool && m.toolCallId.Some? {
        var id := m.toolCallId.value;
        counts := counts[id := (if id in counts then counts[id] else 0) + 1];
      }
    }
    assert messages[0..] == messages[..];
  }

  lemma {:induction false} RetainSnoc(calls: seq<Call>, keep: string -> bool, c: Call)
    ensures Retain(calls + [c], keep) == Retain(calls, keep) + (if keep(c.id) then [c] else [])
  {
    if calls == [] {
      assert calls + [c] == [c] && [c][1..] == [];
    } else {
      assert (calls + [c])[1..] == calls[1..] + [c];
      RetainSnoc(calls[1..], keep, c);
    }
  }

  /** Keeps, in order, the calls answered exactly once, and notes their ids. */
  method RetainCalls(calls: seq<Call>, counts: map<string, nat>, valid: set<string>, ghost ms: seq<Message>)
    returns (kept: seq<Call>, seen: set<string>)
    requires forall id :: (if id in counts then counts[id] else 0) == ResultCount(ms, id)
    ensures kept == Retain(calls, AnsweredOnce(ms))
    ensures forall id :: id in seen <==> id in valid || exists c :: c in kept && c.id == id
  {
    hide ResultCount;
    kept, seen := [], valid;
    var n := 0;
    while n < |calls|
      invariant n <= |calls| && kept == Retain(calls[..n], AnsweredOnce(ms))
      invariant forall id :: id in seen <==> id in valid || exists c :: c in kept && c.id == id
    {
      RetainSnoc(calls[..n], AnsweredOnce(ms), calls[n]);
      assert calls[..n + 1] == calls[..n] + [calls[n]];
      var call := calls[n];
      if call.id in counts && counts[call.id] == 1 {
        kept := kept + [call];
        seen := seen + {call.id};
      }
      n := n + 1;
    }
    assert calls[..n] == calls;
  }

  /** Repairs the calls of one message and notes the ids that stay valid. */
  method RepairOne(m: Message, counts: map<string, nat>, valid: set<string>, ghost ms: seq<Message>, ghost k: nat)
    returns (r: Message, seen: set<string>, dropped: nat)
    requires k < |ms| && m == ms[k]
    requires forall id :: (if id in counts then counts[id] else 0) == ResultCount(ms, id)
    requires forall id :: id in valid <==> ResultCount(ms, id) == 1 && MadeBefore(ms, k, id)
    ensures r == RepairCalls(m, AnsweredOnce(ms)) && dropped == RepairsAt(m, r)
    ensures forall id :: id in seen <==> ResultCount(ms, id) == 1 && MadeBefore(ms, k + 1, id)
  {
    hide ResultCount, MadeBefore, Makes, AnsweredOnce;
    r, seen, dropped := m, valid, 0;
    if m.role == AssistantRole && m.calls != [] {
      var kept, ids := RetainCalls(m.calls, counts, valid, ms);
      MadeWhenKept(ms, k, kept, valid, ids);
      dropped, seen := |m.calls| - |kept|, ids;
      r := m.(calls := kept, content := if kept == [] then m.content + OMITTED else m.content);
    } else {
      NothingMade(ms, k);
    }
  }

  /** First pass: drop the calls that are not answered exactly once. */
  method DropUnansweredCalls(messages: array<Message>) returns (valid: set<string>, repaired: nat)
    modifies messages
    ensures var before := old(messages[..]);
      && (forall k :: 0 <= k < messages.Length ==> messages[k] == RepairCalls(before[k], AnsweredOnce(before)))
      && (forall id :: id in valid <==> ResultCount(before, id) == 1 && Called(before, id))
      && repaired == Saturating(Repairs(before, messages[..]))
  {
    hide *;
    ghost var before := messages[..];
    var counts := CountResults(messages);
    var k := 0;
    ghost var done: seq<Message> := [];
    valid, repaired := {}, 0;
    NothingDoneYet(before);
    while k < messages.Length
      invariant k <= messages.Length && |done| == k
      invariant forall j :: 0 <= j < k ==>
                  messages[j] == done[j] && done[j] == RepairCalls(before[j], AnsweredOnce(before))
      invariant forall j :: k <= j < messages.Length ==> messages[j] == before[j]
      invariant forall id :: id in valid <==> ResultCount(before, id) == 1 && MadeBefore(before, k, id)
      invariant repaired == Saturating(Repairs(before[..k], done))
    {
      var r, seen, dropped := RepairOne(messages[k], counts, valid, before, k);
      SaturatingAdds(Repairs(before[..k], done), dropped);
      messages[k], valid, repaired := r, seen, Saturating(repaired + dropped);
      RepairsSnoc(before[..k], done, before[k], r);
      assert before[..k + 1] == before[..k] + [before[k]];
      done := done + [r];
      k := k + 1;
    }
    assert before[..k] == before && messages[..] == done;
  }

  lemma SaturatingAdds(a: nat, b: nat)
    ensures Saturating(Saturating(a) + b) == Saturating(a + b)
  {
  }

  lemma NothingDoneYet(ms: seq<Message>)
    ensures Saturating(Repairs(ms[..0], [])) == 0
    ensures forall id :: !MadeBefore(ms, 0, id)
    ensures forall id :: Called(ms, id) <==> MadeBefore(ms, |ms|, id)
  {
  }

  lemma MadeWhenKept(ms: seq<Message>, k: nat, kept: seq<Call>, valid: set<string>, seen: set<string>)
    requires k < |ms| && ms[k].role == AssistantRole
    requires kept == Retain(ms[k].calls, AnsweredOnce(ms))
    requires forall id :: id in valid <==> ResultCount(ms, id) == 1 && MadeBefore(ms, k, id)
    requires forall id :: id in seen <==> id in valid || exists c :: c in kept && c.id == id
    ensures forall id :: id in seen <==> ResultCount(ms, id) == 1 && MadeBefore(ms, k + 1, id)
  {
    forall id ensures id in seen <==> ResultCount(ms, id) == 1 && MadeBefore(ms, k + 1, id) {
      if id in seen && id !in valid {
        var c :| c in kept && c.id == id;
        assert Makes(ms[k], id);
      }
      if ResultCount(ms, id) == 1 && Makes(ms[k], id) {
        var c :| c in ms[k].calls && c.id == id;
        assert c in kept;
      }
    }
  }

  lemma NothingMade(ms: seq<Message>, k: nat)
    requires k < |ms| && (ms[k].role != AssistantRole || ms[k].calls == [])
    ensures forall id :: MadeBefore(ms, k + 1, id) <==> MadeBefore(ms, k, id)
  {
    assert forall id :: !Makes(ms[k], id);
  }

  /** Second pass: demote the results that answer no remaining call. */
  method DemoteOrphans(messages: array<Message>, valid: set<string>, soFar: nat, ghost before: seq<Message>)
    returns (repaired: nat)
    requires |before| == messages.Length
    requires forall k :: 0 <= k < messages.Length ==>
               messages[k] == RepairCalls(before[k], AnsweredOnce(before))
    requires forall id :: id in valid <==> ResultCount(before, id) == 1 && Called(before, id)
    requires soFar == Saturating(Repairs(before, messages[..]))
    modifies messages
    ensures messages[..] == Repaired(before) && repaired == Saturating(Repairs(before, Repaired(before)))
  {
    hide Repairs, ResultCount, Retain, Called, BoundedToolResult;
    ghost var dropped := messages[..];
    repaired := soFar;
    var k := 0;
    while k < messages.Length
      invariant k <= messages.Length
      invariant forall j :: 0 <= j < k ==> messages[j] == Repaired(before)[j]
      invariant forall j :: k <= j < messages.Length ==> messages[j] == dropped[j]
      invariant repaired == Saturating(Repairs(before, messages[..]))
    {
      var m := messages[k];
      ghost var now := messages[..];
      if m.role == Tool && !(m.toolCallId.Some? && m.toolCallId.value in valid) {
        repaired := Saturating(repaired + 1);
        messages[k] := m.(role := User, name := None, toolCallId := None,
                          content := ORPHANED + BoundedToolResult(m.content));
        assert messages[..] == now[k := messages[k]];
        OneMoreRepair(before, now, k, messages[k]);
      } else {
        assert messages[..] == now;
      }
      k := k + 1;
    }
    assert messages[..] == Repaired(before);
  }

  lemma {:induction false} OneMoreRepair(before: seq<Message>, now: seq<Message>, k: nat, m: Message)
    requires |before| == |now| && k < |now|
    requires before[k].role == Tool == now[k].role && m.role != Tool
    ensures Repairs(before, now[k := m]) == Repairs(before, now) + 1
    decreases |now|
  {
    var n := |now| - 1;
    if k < n {
      assert now[k := m][..n] == now[..n][k := m];
      OneMoreRepair(before[..n], now[..n], k, m);
    } else {
      assert now[k := m][..n] == now[..n];
    }
  }

  method RepairToolPairs(messages: array<Message>) returns (repaired: nat)
    modifies messages
    ensures messages[..] == Repaired(old(messages[..]))
    ensures repaired == Saturating(Repairs(old(messages[..]), messages[..]))
    ensures repaired == 0 <==> messages[..] == old(messages[..])
  {
    ghost var before := messages[..];
    var valid, dropped := DropUnansweredCalls(messages);
    repaired := DemoteOrphans(messages, valid, dropped, before);
    NoRepairsIffUnchanged(before, |before|);
    assert before[..|before|] == before && Repaired(before)[..|before|] == Repaired(before);
  }

  // ---- Microcompaction ----

  predicate IsRound(m: Message)
  {
    m.role == AssistantRole && m.calls != []
  }

  /** The tool rounds that begin at or after `k`. */
  function Rounds(ms: seq<Message>, k: nat): nat
    requires k <= |ms|
    decreases |ms| - k
  {
    if k == |ms| then 0 else (if IsRound(ms[k]) then 1 else 0) + Rounds(ms, k + 1)
  }

  /** The beginning of the `rounds`-th tool round from the end, or 0 when there are fewer. */
  method ProtectedRoundBoundary(ms: seq<Message>, rounds: nat) returns (boundary: nat)
    requires rounds > 0
    ensures boundary <= |ms|
    ensures Rounds(ms, 0) >= rounds ==>
      && boundary < |ms| && Rounds(ms, boundary) == rounds
      && ms[boundary].role == AssistantRole && ms[boundary].calls != []
    ensures Rounds(ms, 0) < rounds ==> boundary == 0
  {
    var remaining := rounds;
    var index: nat := |ms|;
    while index > 0
      invariant index <= |ms| && 0 < remaining <= rounds && Rounds(ms, index) == rounds - remaining
    {
      index := index - 1;
      if IsRound(ms[index]) {
        remaining := remaining - 1;
        if remaining == 0 {
          RoundsGrow(ms, 0, index);
          return index;
        }
      }
    }
    boundary := 0;
  }

  lemma {:induction false} RoundsGrow(ms: seq<Message>, j: nat, k: nat)
    requires j <= k <= |ms|
    ensures Rounds(ms, j) >= Rounds(ms, k)
    decreases k - j
  {
    if j < k {
      RoundsGrow(ms, j + 1, k);
    }
  }

  /** The assistant messages from `k` on that make calls. */
  function CallingMessages(ms: seq<Message>, k: nat): set<nat>
  {
    set i: nat | k <= i < |ms| && ms[i].role == AssistantRole && ms[i].calls != []
  }

  lemma CallingMessagesStep(ms: seq<Message>, k: nat)
    ensures CallingMessages(ms, |ms|) == {}
    ensures k < |ms| ==>
      |CallingMessages(ms, k)| == |CallingMessages(ms, k + 1)| + (if IsRound(ms[k]) then 1 else 0)
  {
    if k < |ms| {
      assert CallingMessages(ms, k) == CallingMessages(ms, k + 1) + (if IsRound(ms[k]) then {k} else {});
    }
  }

  /** A round is an assistant message that makes calls. */
  lemma {:induction false} RoundsAreCounted(ms: seq<Message>, k: nat)
    requires k <= |ms|
    ensures Rounds(ms, k) == |CallingMessages(ms, k)|
    decreases |ms| - k
  {
    hide CallingMessages, IsRound;
    CallingMessagesStep(ms, k);
    if k < |ms| {
      RoundsAreCounted(ms, k + 1);
    }
  }

  /** The boundary is determined by its contract. */
  ghost predicate IsBoundary(ms: seq<Message>, b: nat)
  {
    b <= |ms| && (if Rounds(ms, 0) >= 2 then b < |ms| && IsRound(ms[b]) && Rounds(ms, b) == 2 else b == 0)
  }

  /** Exactly the last two calling messages are at or behind the boundary, the first of them at it; with fewer than
      two in all everything is behind it. */
  lemma TwoRoundsAreProtected(ms: seq<Message>, b: nat)
    requires b <= |ms|
    ensures IsBoundary(ms, b) <==>
      if |CallingMessages(ms, 0)| < 2 then b == 0
      else b in CallingMessages(ms, 0) && |CallingMessages(ms, b)| == 2
  {
    RoundsAreCounted(ms, 0);
    RoundsAreCounted(ms, b);
  }

  predicate IsLatestUser(ms: seq<Message>, u: nat)
  {
    && u <= |ms|
    && (u < |ms| ==> ms[u].role == User)
    && (forall k :: u < k < |ms| ==> ms[k].role != User)
    && (u == |ms| ==> forall k :: 0 <= k < |ms| ==> ms[k].role != User)
  }

  function Join(images: seq<Image>): string
  {
    if images == [] then ""
    else images[0].mediaType + ":" + images[0].sourceLabel
         + (if |images| == 1 then "" else ", " + Join(images[1..]))
  }

  function WithoutImages(m: Message): Message
  {
    if m.images == [] then m
    else m.(images := [], content := m.content + IMAGES_REMOVED + Join(m.images) + "]")
  }

  predicate ReportsFailure(content: string)
  {
    StartsWith(content, "[tool ") && !StartsWith(content, SUCCEEDED)
  }

  function Shrunk(m: Message, retained: Retention): Message
  {
    if m.role != Tool || ReportsFailure(m.content) then m else m.(content := retained(m.name, m.content))
  }

  /** The request after microcompaction, for the boundary `b` and the latest user message `u`. */
  function Compacted(ms: seq<Message>, b: nat, u: nat, retained: Retention): (r: seq<Message>)
    ensures |r| == |ms|
    ensures forall k :: 0 <= k < |ms| ==> r[k] == CompactedAt(ms, b, u, retained, k)
  {
    seq(|ms|, k requires 0 <= k < |ms| => CompactedAt(ms, b, u, retained, k))
  }

  function CompactedAt(ms: seq<Message>, b: nat, u: nat, retained: Retention, k: nat): Message
    requires k < |ms|
  {
    var m := if k < u then WithoutImages(ms[k]) else ms[k];
    if k < b then Shrunk(m, retained) else m
  }

  predicate SameShape(a: Message, b: Message)
  {
    a.role == b.role && a.calls == b.calls && a.toolCallId == b.toolCallId && a.name == b.name
  }

  lemma {:induction false} ShapeDecidesPairing(ms: seq<Message>, r: seq<Message>)
    requires |ms| == |r| && forall k :: 0 <= k < |ms| ==> SameShape(ms[k], r[k])
    requires WellPaired(ms)
    ensures WellPaired(r)
  {
    forall id ensures ResultCount(r, id) == ResultCount(ms, id) {
      hide ResultCount;
      CountsAgree(ms, r, id);
    }
    hide ResultCount;
    forall id ensures Called(ms, id) ==> Called(r, id) {
      if Called(ms, id) {
        var k :| 0 <= k < |ms| && Makes(ms[k], id);
        assert SameShape(ms[k], r[k]) && Makes(r[k], id);
      }
    }
    forall k, c | 0 <= k < |r| && r[k].role == AssistantRole && c in r[k].calls ensures ResultCount(r, c.id) == 1 {
      assert SameShape(ms[k], r[k]);
    }
    forall k | 0 <= k < |r| && r[k].role == Tool ensures r[k].toolCallId.Some? && Called(r, r[k].toolCallId.value) {
      assert SameShape(ms[k], r[k]);
    }
    forall j, k | 0 <= j < k < |r| && r[j].role == Tool && r[k].role == Tool
      ensures r[j].toolCallId != r[k].toolCallId
    {
      assert SameShape(ms[j], r[j]) && SameShape(ms[k], r[k]);
    }
  }

  /** Only contents and images ever change; so a paired request stays paired. */
  lemma CompactionKeepsPairing(ms: seq<Message>, b: nat, u: nat, retained: Retention)
    requires WellPaired(ms)
    ensures var r := Compacted(ms, b, u, retained);
      && WellPaired(r)
      && forall k :: 0 <= k < |ms| ==> SameShape(ms[k], r[k])
  {
    hide WellPaired, ReportsFailure, Join;
    ShapeDecidesPairing(ms, Compacted(ms, b, u, retained));
  }

  lemma NoteStartsOnANewLine()
    ensures IMAGES_REMOVED[0] == '\n'
  {
    // a prefix of the long literal settles its first character
    assert "\n[bounded image references retained "[0] == '\n';
  }

  lemma OccursLater(before: string, text: string, pattern: string, at: nat)
    requires OccursAt(text, pattern, at)
    ensures OccursAt(before + text, pattern, |before| + at)
  {
    assert (before + text)[|before| + at..|before| + at + |pattern|] == text[at..at + |pattern|];
  }

  lemma OccursFirst(pattern: string, after: string)
    ensures OccursAt(pattern + after, pattern, 0)
  {
    assert (pattern + after)[..|pattern|] == pattern;
  }

  /** The references of all the images stand in the text that is joined from them. */
  lemma {:induction false} JoinNames(images: seq<Image>, j: nat) returns (at: nat)
    requires j < |images|
    ensures OccursAt(Join(images), images[j].mediaType + ":" + images[j].sourceLabel, at)
  {
    hide OccursAt;
    var first := images[0].mediaType + ":" + images[0].sourceLabel;
    if j == 0 {
      OccursFirst(first, if |images| == 1 then "" else ", " + Join(images[1..]));
      at := 0;
    } else {
      var later := JoinNames(images[1..], j - 1);
      OccursLater(first + ", ", Join(images[1..]), images[j].mediaType + ":" + images[j].sourceLabel, later);
      assert (first + ", ") + Join(images[1..]) == first + (", " + Join(images[1..]));
      at := |first + ", "| + later;
    }
  }

  /** The note put in place of images leaves the text before it as it was and names every one of them. */
  lemma NoteNamesImages(m: Message)
    ensures m.content <= WithoutImages(m).content
    ensures forall j :: 0 <= j < |m.images| ==>
      NamedBehind(WithoutImages(m).content, m.images[j].mediaType + ":" + m.images[j].sourceLabel, |m.content|)
  {
    hide Join;
    var noted := WithoutImages(m).content;
    forall j | 0 <= j < |m.images|
      ensures NamedBehind(noted, m.images[j].mediaType + ":" + m.images[j].sourceLabel, |m.content|)
    {
      var name := m.images[j].mediaType + ":" + m.images[j].sourceLabel;
      var at := JoinNames(m.images, j);
      assert OccursAt(Join(m.images) + "]", name, at);
      OccursLater(m.content + IMAGES_REMOVED, Join(m.images) + "]", name, at);
      assert noted == (m.content + IMAGES_REMOVED) + (Join(m.images) + "]");
    }
  }

  /** What is protected: everything from the second-last tool round on, every failed tool result and
      every message that is not a tool result keep their text. Only messages before the latest user message lose
      their images, and the text then goes on behind what it was and names every image that was there. */
  lemma CompactionProtects(ms: seq<Message>, b: nat, u: nat, retained: Retention, k: nat)
    requires k < |ms|
    requires
      || k >= b || ms[k].role != Tool
      || (StartsWith(ms[k].content, "[tool ") && !StartsWith(ms[k].content, "[tool status=succeeded "))
    ensures var r := Compacted(ms, b, u, retained)[k];
      && ms[k].content <= r.content
      && (k >= u || ms[k].images == [] ==> r == ms[k])
      && r == ms[k].(content := r.content, images := if k < u then [] else ms[k].images)
      && forall j :: k < u && 0 <= j < |ms[k].images| ==>
           NamedBehind(r.content, ms[k].images[j].mediaType + ":" + ms[k].images[j].sourceLabel, |ms[k].content|)
  {
    NoteNamesImages(ms[k]);
    hide Join, StartsWith;
    NoteKeepsReport(ms[k]);
  }

  /** Every other message is an old tool result that reports no failure, and holds what is retained of it, the note
      on its images included. */
  lemma CompactionShrinks(ms: seq<Message>, b: nat, u: nat, retained: Retention, k: nat)
    requires k < |ms| && k < b && ms[k].role == Tool
    requires StartsWith(ms[k].content, "[tool status=succeeded ") || !StartsWith(ms[k].content, "[tool ")
    ensures var r := Compacted(ms, b, u, retained)[k];
      var m := if k < u then WithoutImages(ms[k]) else ms[k];
      && ms[k].content <= m.content && (k >= u || ms[k].images == [] ==> m.content == ms[k].content)
      && r == ms[k].(content := retained(ms[k].name, m.content), images := if k < u then [] else ms[k].images)
  {
    hide Join;
    NoteKeepsReport(ms[k]);
  }

  lemma NoteKeepsReport(m: Message)
    ensures ReportsFailure(WithoutImages(m).content) <==> ReportsFailure(m.content)
  {
    hide Join;
    if m.images != [] {
      var note := Join(m.images) + "]";
      assert (IMAGES_REMOVED + note)[0] == IMAGES_REMOVED[0];
      NoteStartsOnANewLine();
      FailureStaysReported(m.content, IMAGES_REMOVED + note);
      assert WithoutImages(m).content == m.content + (IMAGES_REMOVED + note);
    }
  }

  /** A message comes through microcompaction untouched if and only if it carries no old image and is
      not an old succeeded result whose retained form differs. */
  lemma UntouchedIff(ms: seq<Message>, b: nat, u: nat, retained: Retention, k: nat)
    requires k < |ms|
    ensures Compacted(ms, b, u, retained)[k] == ms[k] <==>
      && (k < u ==> ms[k].images == [])
      && (k < b && ms[k].role == Tool && !ReportsFailure(ms[k].content) ==>
            retained(ms[k].name, ms[k].content) == ms[k].content)
  {
    if k < u && ms[k].images != [] {
      assert WithoutImages(ms[k]).images == [];
    }
  }

  /** A result is taken for a failure by its header alone: text added on a new line never changes that, even when
      the result ends inside its own header. */
  lemma FailureStaysReported(content: string, more: string)
    requires more != [] && more[0] == '\n'
    ensures ReportsFailure(content + more) <==> ReportsFailure(content)
  {
    SameHeader(content, more, "[tool ");
    SameHeader(content, more, SUCCEEDED);
  }

  lemma SameHeader(content: string, more: string, header: string)
    requires more != [] && more[0] == '\n' && '\n' !in header
    ensures StartsWith(content + more, header) <==> StartsWith(content, header)
  {
    var whole := content + more;
    if |content| >= |header| {
      assert whole[..|header|] == content[..|header|];
    } else if |whole| >= |header| {
      assert whole[..|header|][|content|] == '\n' != header[|content|];
    }
  }

  /** On a well-paired request with images at most in its latest user turn, microcompaction changes
      nothing but the text of succeeded tool results before the second-last tool round. */
  lemma CompactionIsLocal(ms: seq<Message>, b: nat, u: nat, retained: Retention, k: nat)
    requires WellPaired(ms) && k < |ms|
    requires forall j :: 0 <= j < u && j < |ms| ==> ms[j].images == []
    ensures var r := Compacted(Repaired(ms), b, u, retained)[k];
      && r == ms[k].(content := r.content)
      && (r != ms[k] ==> k < b && ms[k].role == Tool && !ReportsFailure(ms[k].content)
                         && r.content == retained(ms[k].name, ms[k].content))
  {
    PairedIsRepaired(ms);
  }

  /** A second compaction changes a message again if and only if it is an old succeeded result whose text,
      as the first compaction left it, is not retained as it is. */
  lemma SecondCompactionIff(ms: seq<Message>, b: nat, u: nat, retained: Retention, k: nat)
    requires k < |ms|
    ensures var once := Compacted(ms, b, u, retained);
      Compacted(once, b, u, retained)[k] == once[k] <==>
        (k < b && once[k].role == Tool && !ReportsFailure(once[k].content) ==>
          retained(once[k].name, once[k].content) == once[k].content)
  {
    hide ReportsFailure, Join;
    UntouchedIff(Compacted(ms, b, u, retained), b, u, retained, k);
  }

  /** Compaction is stable for every way of retaining results that is stable on the results it retains; the
      plain bounding rule is one. */
  lemma CompactionIsStable(ms: seq<Message>, b: nat, u: nat, retained: Retention)
    requires forall name, content :: retained(name, retained(name, content)) == retained(name, content)
    ensures var once := Compacted(ms, b, u, retained);
      Compacted(once, b, u, retained) == once
  {
    var once := Compacted(ms, b, u, retained);
    forall k | 0 <= k < |ms| ensures Compacted(once, b, u, retained)[k] == once[k] {
      SecondCompactionIff(ms, b, u, retained, k);
    }
  }

  lemma BoundingIsStable(ms: seq<Message>, b: nat, u: nat)
    ensures var bound := (name: Option<string>, content: string) => BoundedToolResult(content);
      var once := Compacted(ms, b, u, bound);
      Compacted(once, b, u, bound) == once
  {
    hide Compacted;
    var bound := (name: Option<string>, content: string) => BoundedToolResult(content);
    forall name: Option<string>, content: string ensures bound(name, bound(name, content)) == bound(name, content) {
      BoundedIsIdempotent(content);
    }
    CompactionIsStable(ms, b, u, bound);
  }

  method LatestUser(ms: seq<Message>) returns (u: nat)
    ensures IsLatestUser(ms, u)
  {
    u := |ms|;
    var k: nat := |ms|;
    while k > 0
      invariant k <= |ms| && u == |ms|
      invariant forall j :: k <= j < |ms| ==> ms[j].role != User
    {
      k := k - 1;
      if ms[k].role == User {
        return k;
      }
    }
  }

  /** The images dropped and the results shrunk among the first `n` messages. */
  function ImagesDropped(ms: seq<Message>, u: nat, n: nat): nat
    requires n <= |ms|
  {
    if n == 0 then 0 else ImagesDropped(ms, u, n - 1) + (if n - 1 < u then |ms[n - 1].images| else 0)
  }

  function ResultsShrunk(ms: seq<Message>, b: nat, u: nat, retained: Retention, n: nat): nat
    requires n <= |ms|
  {
    if n == 0 then 0 else
    var m := if n - 1 < u then WithoutImages(ms[n - 1]) else ms[n - 1];
    ResultsShrunk(ms, b, u, retained, n - 1) + (if n - 1 < b && Shrunk(m, retained) != m then 1 else 0)
  }

  function Images(ms: seq<Message>, n: nat): nat
    requires n <= |ms|
  {
    if n == 0 then 0 else Images(ms, n - 1) + |ms[n - 1].images|
  }

  /** Those of the first `n` messages whose text is not what it was, the note on images aside. */
  function Shortened(ms: seq<Message>, r: seq<Message>, u: nat, n: nat): set<nat>
    requires n <= |ms| == |r|
  {
    set k: nat | k < n && r[k].content != (if k < u then WithoutImages(ms[k]) else ms[k]).content
  }

  lemma ShortenedStep(ms: seq<Message>, r: seq<Message>, u: nat, n: nat)
    requires n <= |ms| == |r|
    ensures Shortened(ms, r, u, 0) == {}
    ensures n < |ms| ==>
      |Shortened(ms, r, u, n + 1)| == |Shortened(ms, r, u, n)|
        + (if r[n].content != (if n < u then WithoutImages(ms[n]) else ms[n]).content then 1 else 0)
  {
    if n < |ms| {
      var changed := r[n].content != (if n < u then WithoutImages(ms[n]) else ms[n]).content;
      assert Shortened(ms, r, u, n + 1) == Shortened(ms, r, u, n) + (if changed then {n} else {});
    }
  }

  lemma CountsOfOne(ms: seq<Message>, b: nat, u: nat, retained: Retention, k: nat)
    requires k < |ms|
    ensures var r := Compacted(ms, b, u, retained)[k];
      var m := if k < u then WithoutImages(ms[k]) else ms[k];
      && (k < b && Shrunk(m, retained) != m <==> r.content != m.content)
      && |r.images| == (if k < u then 0 else |ms[k].images|)
  {
    hide Join, ReportsFailure;
  }

  /** No image is lost uncounted, and the messages counted as shrunk are those whose text is not what it was, the
      note on images aside. */
  lemma {:induction false} CompactionIsCounted(ms: seq<Message>, b: nat, u: nat, retained: Retention, n: nat)
    requires n <= |ms|
    ensures var r := Compacted(ms, b, u, retained);
      && ImagesDropped(ms, u, n) + Images(r, n) == Images(ms, n)
      && ResultsShrunk(ms, b, u, retained, n) == |Shortened(ms, r, u, n)|
    decreases n
  {
    hide Shortened, Compacted, WithoutImages, Shrunk;
    ShortenedStep(ms, Compacted(ms, b, u, retained), u, 0);
    if n > 0 {
      CompactionIsCounted(ms, b, u, retained, n - 1);
      ShortenedStep(ms, Compacted(ms, b, u, retained), u, n - 1);
      CountsOfOne(ms, b, u, retained, n - 1);
    }
  }

  /** Shrinks the results before `boundary` and drops the images before `latestUser`, in place. */
  method ShrinkInPlace(messages: array<Message>, boundary: nat, latestUser: nat, retained: Retention)
    returns (compacted: nat, removed: nat)
    modifies messages
    ensures messages[..] == Compacted(old(messages[..]), boundary, latestUser, retained)
    ensures removed == Saturating(ImagesDropped(old(messages[..]), latestUser, messages.Length))
    ensures compacted == Saturating(ResultsShrunk(old(messages[..]), boundary, latestUser, retained, messages.Length))
  {
    hide ReportsFailure, Join;
    ghost var before := messages[..];
    compacted, removed := 0, 0;
    var k := 0;
    while k < messages.Length
      invariant k <= messages.Length
      invariant removed == Saturating(ImagesDropped(before, latestUser, k))
      invariant compacted == Saturating(ResultsShrunk(before, boundary, latestUser, retained, k))
      invariant forall j :: 0 <= j < k ==> messages[j] == CompactedAt(before, boundary, latestUser, retained, j)
      invariant forall j :: k <= j < messages.Length ==> messages[j] == before[j]
    {
      var m := messages[k];
      if k < latestUser && m.images != [] {
        removed := Saturating(removed + Saturating(|m.images|));
        m := WithoutImages(m);
        messages[k] := m;
      }
      if k < boundary && m.role == Tool && !ReportsFailure(m.content) {
        var shrunk := retained(m.name, m.content);
        if shrunk != m.content {
          messages[k] := m.(content := shrunk);
          compacted := Saturating(compacted + 1);
        }
      }
      k := k + 1;
    }
    assert messages[..] == Compacted(before, boundary, latestUser, retained);
  }

  /** Repairs the pairs, then shrinks old tool results and drops old images, all in place. */
  method MicrocompactRequest(messages: array<Message>, retained: Retention)
    returns (compacted: nat, repaired: nat, removed: nat, ghost b: nat, ghost u: nat)
    modifies messages
    ensures var r := Repaired(old(messages[..]));
      && IsBoundary(r, b) && IsLatestUser(r, u)
      && messages[..] == Compacted(r, b, u, retained)
      && repaired == Saturating(Repairs(old(messages[..]), r))
      && removed == Saturating(ImagesDropped(r, u, |r|))
      && compacted == Saturating(ResultsShrunk(r, b, u, retained, |r|))
    ensures WellPaired(messages[..])
  {
    hide Repaired, Repairs, ResultCount, Compacted, WellPaired, ImagesDropped, ResultsShrunk;
    ghost var before := messages[..];
    repaired := RepairToolPairs(messages);
    ghost var r := messages[..];
    var boundary := ProtectedRoundBoundary(messages[..], 2);
    var latestUser := LatestUser(messages[..]);
    b, u := boundary, latestUser;
    compacted, removed := ShrinkInPlace(messages, boundary, latestUser, retained);
    RepairPairs(before);
    CompactionKeepsPairing(r, b, u, retained);
  }

  // ---- The latest user turn ----

  /** A tool message that repair turns into a user message: it answers no call, or a call answered more
      than once. */
  predicate Demoted(ms: seq<Message>, k: nat)
    requires k < |ms|
  {
    && ms[k].role == Tool
    && !(ms[k].toolCallId.Some?
         && ResultCount(ms, ms[k].toolCallId.value) == 1 && Called(ms, ms[k].toolCallId.value))
  }

  lemma UserAfterRepairIff(ms: seq<Message>, k: nat)
    requires k < |ms|
    ensures Repaired(ms)[k].role == User <==> ms[k].role == User || Demoted(ms, k)
    ensures Repaired(ms)[k].images == ms[k].images
  {
    hide ResultCount, Called, Retain, BoundedToolResult;
  }

  /** Repair keeps the latest user turn if and only if it demotes no tool message after it; a request without
      user message has none after repair if and only if nothing is demoted. */
  lemma LatestTurnIsKeptIff(ms: seq<Message>, u: nat)
    requires IsLatestUser(ms, u)
    ensures u < |ms| ==> (IsLatestUser(Repaired(ms), u) <==> forall k :: u < k < |ms| ==> !Demoted(ms, k))
    ensures u == |ms| ==> (IsLatestUser(Repaired(ms), u) <==> forall k :: 0 <= k < |ms| ==> !Demoted(ms, k))
  {
    hide Repaired, Demoted;
    forall k | 0 <= k < |ms| ensures Repaired(ms)[k].role == User <==> ms[k].role == User || Demoted(ms, k) {
      UserAfterRepairIff(ms, k);
    }
  }

  /** So the latest user turn keeps its images through repair and microcompaction if and only if every
      tool message after it is the one answer to a call. */
  lemma LatestTurnKeepsImagesIff(ms: seq<Message>, u: nat, b: nat, v: nat, retained: Retention)
    requires IsLatestUser(ms, u) && u < |ms| && ms[u].images != []
    requires IsLatestUser(Repaired(ms), v)
    ensures Compacted(Repaired(ms), b, v, retained)[u].images == ms[u].images
       <==> forall k :: u < k < |ms| ==> !Demoted(ms, k)
  {
    hide Repaired, Demoted, Join, ReportsFailure;
    LatestTurnIsKeptIff(ms, u);
    UserAfterRepairIff(ms, u);
    if IsLatestUser(Repaired(ms), u) {
      assert u == v;
    } else {
      assert v > u;
    }
  }

  /** The turn can be lost: an orphaned result after it becomes the latest user message, and the images of
      the turn itself are dropped. */
  lemma OrphanHidesLatestUser(retained: Retention)
    ensures var ask := Message(User, "look", None, None, [], [Image("image/png", "screen", "data")]);
      var orphan := Message(Tool, "late", None, Some("a"), [], []);
      var r := Repaired([ask, orphan]);
      && IsLatestUser([ask, orphan], 0) && Demoted([ask, orphan], 1) && IsLatestUser(r, 1)
      && Compacted(r, 0, 1, retained)[0].images == []
  {
    var ask := Message(User, "look", None, None, [], [Image("image/png", "screen", "data")]);
    var orphan := Message(Tool, "late", None, Some("a"), [], []);
    assert !Makes(ask, "a") && !Makes(orphan, "a");
    UserAfterRepairIff([ask, orphan], 0);
    UserAfterRepairIff([ask, orphan], 1);
  }
}
