/** The claim protocol that keeps a side effect from being executed twice: durable records moved from
    claimed to dispatched to finished, and replies to duplicate calls read from them. */
module SideEffects {
  import opened Text

  const MAX_PERSISTED_CHARS: nat := 32_000
  const MAX_PERSISTED_BYTES: nat := 64 * 1024

  // ---- Results and what is kept of them ----

  datatype ResultStatus = ResultSucceeded | ResultFailed | ResultRejected | ResultAborted | ResultTimedOut

  /** Structured content: its encoded size, whether it asks not to be persisted, and the rest, opaque. */
  datatype Structured =
    | Content(encodedBytes: nat, redactForPersistence: bool, data: string)
    | TruncatedOrRedacted
    | Replayed
    | Empty

  datatype ToolResult = ToolResult(
    status: ResultStatus, modelContent: string, structured: Structured, modelImages: seq<string>)

  /** What executing the wrapped tool yields: a result, or an executor error. */
  datatype Executed = Finished(result: ToolResult) | ExecutorError

  datatype Status = Claimed | Dispatched | Succeeded | Failed | Cancelled | Indeterminate

  datatype Persisted = Persisted(modelContent: string, structured: Structured)

  datatype Completion = Completion(status: Status, persisted: Option<Persisted>)

  predicate Terminal(status: Status)
  {
    status != Claimed && status != Dispatched
  }

  function Take(s: string, n: nat): string
  {
    if |s| <= n then s else s[..n]
  }

  predicate KeptWhole(s: Structured)
  {
    s.Content? ==> s.encodedBytes <= MAX_PERSISTED_BYTES && !s.redactForPersistence
  }

  function SideEffectCompletion(executed: Executed): (c: Completion)
    ensures Terminal(c.status)
    ensures c.status == Succeeded <==> executed.Finished? && executed.result.status == ResultSucceeded
    ensures c.status == Status.Cancelled <==> executed.Finished? && executed.result.status == ResultAborted
    ensures c.status == Indeterminate <==> executed.ExecutorError?
    ensures c.persisted.None? <==> executed.ExecutorError?
  {
    match executed
    case ExecutorError => Completion(Indeterminate, None)
    case Finished(result) =>
      var status := match result.status
        case ResultSucceeded => Succeeded
        case ResultAborted => Cancelled
        case ResultTimedOut => Failed
        case ResultFailed => Failed
        case ResultRejected => Failed;
      Completion(status, Some(Persisted(
        Take(result.modelContent, MAX_PERSISTED_CHARS),
        if KeptWhole(result.structured) then result.structured else TruncatedOrRedacted)))
  }

  /** What is kept of a result: its text up to the limit, and its structured content exactly when that is within
      the limit and may be persisted. */
  lemma WhatIsPersisted(result: ToolResult)
    ensures var c := SideEffectCompletion(Finished(result));
      && c.persisted.Some? && KeptOf(c.persisted.value.modelContent, c.persisted.value.structured, result)
  {
  }

  predicate KeptOf(modelContent: string, structured: Structured, result: ToolResult)
  {
    && modelContent <= result.modelContent
    && (modelContent == result.modelContent || |modelContent| == 32_000 < |result.modelContent|)
    && (if result.structured.Content?
           && (result.structured.redactForPersistence || result.structured.encodedBytes > 65_536)
        then structured == TruncatedOrRedacted else structured == result.structured)
  }

  const ALREADY_COMPLETED := "side effect already completed"

  /** The reply to a duplicate call, from the durable record; None stands for the rejection that names
      the record's state. */
  function DuplicateResult(status: Status, persisted: Option<Persisted>): (r: Option<ToolResult>)
    ensures r.Some? <==> status == Succeeded || status == Failed
    ensures r.Some? ==> (r.value.status == ResultSucceeded <==> status == Succeeded)
  {
    if status == Succeeded || status == Failed then
      var value := if persisted.Some? then persisted.value else Persisted(ALREADY_COMPLETED, Replayed);
      Some(ToolResult(if status == Succeeded then ResultSucceeded else ResultFailed,
                      value.modelContent, value.structured, []))
    else None
  }

  /** A success or a plain failure, with content within the persistence limits, not redacted and without
      images. */
  predicate Faithful(r: ToolResult)
  {
    && |r.modelContent| <= MAX_PERSISTED_CHARS
    && KeptWhole(r.structured)
    && r.modelImages == []
    && (r.status == ResultSucceeded || r.status == ResultFailed)
  }

  /** Replaying gives back the original result if and only if nothing of it had to be left out. */
  lemma ReplayIsFaithfulIff(executed: Executed)
    requires executed.Finished?
    ensures var c := SideEffectCompletion(executed);
      DuplicateResult(c.status, c.persisted) == Some(executed.result) <==> Faithful(executed.result)
  {
  }

  // ---- The protocol ----

  type CallId = nat
  type Hash = string

  /** One generation of one run. A call's idempotency key is made of the generation and its id, so
      within the generation the id is the key. */
  datatype Record = Record(owner: InvocationId, parameters: Hash, status: Status, persisted: Option<Persisted>)

  type InvocationId = nat

  datatype Reply =
    | Result(result: ToolResult)      // the tool's own result
    | Replay(result: ToolResult)      // a recorded result
    | NotReplayed(status: Status)     // a record that cannot be replayed
    | AbortedReply                    // cancelled before dispatch, or a late result discarded
    | ErrorReply                      // storage, hook or executor error
    | DeniedReply                     // rejected before the claim

  /** Where one invocation stands. */
  datatype Phase =
    | Admitted                        // past authorization and admission
    | Owner                           // its claim was created
    | ReadyToExecute                  // marked dispatched; the before-hook has not run yet
    | Executing                       // the wrapped tool is running
    | Returned(executed: Executed)    // the wrapped tool returned, nothing recorded yet
    | Late(executed: Executed)        // found cancelled after the return
    | OnTime(executed: Executed)      // found not cancelled after the return
    | Recorded(executed: Executed)    // completion recorded; the after-hook has not run yet
    | Done(reply: Reply)

  datatype Invocation = Invocation(call: CallId, parameters: Hash, cancelled: bool, phase: Phase)

  /** `executions` and `returned` are the history of the wrapped tool: when it was started and for which
      call, and what it returned, with whether the invocation had been cancelled by then. */
  datatype State = State(
    records: map<CallId, Record>,
    invocations: map<InvocationId, Invocation>,
    executions: seq<(InvocationId, CallId)>,
    returned: map<InvocationId, (Executed, bool)>)

  /** The store may refuse or fail wherever it is asked: `ok` says whether it did not. */
  datatype Step =
    | Arrive(i: InvocationId, call: CallId, parameters: Hash)
    | Cancel(i: InvocationId)
    | Deny(i: InvocationId)
    | ReplayLookup(i: InvocationId)
    | Claim(i: InvocationId, ok: bool)
    | AbortClaim(i: InvocationId, ok: bool)
    | MarkDispatched(i: InvocationId, ok: bool, cancelOk: bool)
    | BeforeHook(i: InvocationId, ok: bool)
    | Return(i: InvocationId, executed: Executed)
    | Judge(i: InvocationId)
    | RecordLate(i: InvocationId, ok: bool)
    | RecordCompletion(i: InvocationId, ok: bool)
    | AfterHook(i: InvocationId, ok: bool)

  const START := State(map[], map[], [], map[])

  function Move(s: State, i: InvocationId, phase: Phase): State
    requires i in s.invocations
  {
    s.(invocations := s.invocations[i := s.invocations[i].(phase := phase)])
  }

  function Finish(s: State, i: InvocationId, reply: Reply): State
    requires i in s.invocations
  {
    Move(s, i, Done(reply))
  }

  /** A guarded status change of the record of `call`: refused unless it has the expected status. */
  function Transition(s: State, call: CallId, expected: Status, next: Status, persisted: Option<Persisted>)
    : Option<State>
  {
    if call in s.records && s.records[call].status == expected
    then Some(s.(records := s.records[call := s.records[call].(status := next, persisted := persisted)]))
    else None
  }

  function DuplicateReply(record: Record): Reply
  {
    match DuplicateResult(record.status, record.persisted)
    case Some(result) => Replay(result)
    case None => NotReplayed(record.status)
  }

  predicate In(s: State, i: InvocationId, phase: Phase)
  {
    i in s.invocations && s.invocations[i].phase == phase
  }

  function ReplayOrConflict(s: State, i: InvocationId): State
    requires i in s.invocations && s.invocations[i].call in s.records
  {
    var record := s.records[s.invocations[i].call];
    if record.parameters != s.invocations[i].parameters then Finish(s, i, ErrorReply)
    else Finish(s, i, DuplicateReply(record))
  }

  /** Atomic insert-if-absent on the call's key. */
  function ApplyClaim(s: State, i: InvocationId, ok: bool): Option<State>
  {
    if !In(s, i, Admitted) then None
    else if !ok then Some(Finish(s, i, ErrorReply))
    else
      var me := s.invocations[i];
      if me.call in s.records then Some(ReplayOrConflict(s, i))
      else Some(Move(s.(records := s.records[me.call := Record(i, me.parameters, Claimed, None)]), i, Owner))
  }

  function ApplyAbort(s: State, i: InvocationId, ok: bool): Option<State>
  {
    if !In(s, i, Owner) || !s.invocations[i].cancelled then None
    else
      var moved := Transition(s, s.invocations[i].call, Claimed, Status.Cancelled, None);
      Some(if ok && moved.Some? then Finish(moved.value, i, AbortedReply) else Finish(s, i, ErrorReply))
  }

  function ApplyDispatch(s: State, i: InvocationId, ok: bool, cancelOk: bool): Option<State>
  {
    if !In(s, i, Owner) then None
    else
      var call := s.invocations[i].call;
      var dispatched := Transition(s, call, Claimed, Dispatched, None);
      var cancelled := Transition(s, call, Claimed, Status.Cancelled, None);
      Some(if ok && dispatched.Some? then Move(dispatched.value, i, ReadyToExecute)
           else if cancelOk && cancelled.Some? then Finish(cancelled.value, i, AbortedReply)
           else Finish(s, i, AbortedReply))
  }

  function ApplyLate(s: State, i: InvocationId, ok: bool): Option<State>
  {
    if !(i in s.invocations && s.invocations[i].phase.Late?) then None
    else
      var moved := Transition(s, s.invocations[i].call, Dispatched, Indeterminate, None);
      Some(if ok && moved.Some? then Finish(moved.value, i, AbortedReply) else Finish(s, i, ErrorReply))
  }

  function ApplyCompletion(s: State, i: InvocationId, ok: bool): Option<State>
  {
    if !(i in s.invocations && s.invocations[i].phase.OnTime?) then None
    else
      var executed := s.invocations[i].phase.executed;
      var c := SideEffectCompletion(executed);
      var moved := Transition(s, s.invocations[i].call, Dispatched, c.status, c.persisted);
      Some(if ok && moved.Some? then Move(moved.value, i, Recorded(executed)) else Finish(s, i, ErrorReply))
  }

  function Apply(s: State, step: Step): Option<State>
  {
    match step
    case Arrive(i, call, parameters) =>
      if i in s.invocations then None
      else Some(s.(invocations := s.invocations[i := Invocation(call, parameters, false, Admitted)]))
    case Cancel(i) =>
      if i !in s.invocations then None
      else Some(s.(invocations := s.invocations[i := s.invocations[i].(cancelled := true)]))
    case Deny(i) => if In(s, i, Admitted) then Some(Finish(s, i, DeniedReply)) else None
    case ReplayLookup(i) =>
      if In(s, i, Admitted) && s.invocations[i].call in s.records then Some(ReplayOrConflict(s, i)) else None
    case Claim(i, ok) => ApplyClaim(s, i, ok)
    case AbortClaim(i, ok) => ApplyAbort(s, i, ok)
    case MarkDispatched(i, ok, cancelOk) => ApplyDispatch(s, i, ok, cancelOk)
    case BeforeHook(i, ok) =>
      if !In(s, i, ReadyToExecute) then None
      else if !ok then Some(Finish(s, i, ErrorReply))
      else Some(Move(s.(executions := s.executions + [(i, s.invocations[i].call)]), i, Executing))
    case Return(i, executed) =>
      if !In(s, i, Executing) then None
      else Some(Move(s.(returned := s.returned[i := (executed, s.invocations[i].cancelled)]), i, Returned(executed)))
    case Judge(i) =>
      if !(i in s.invocations && s.invocations[i].phase.Returned?) then None else
      var executed := s.invocations[i].phase.executed;
      Some(Move(s, i, if s.invocations[i].cancelled then Late(executed) else OnTime(executed)))
    case RecordLate(i, ok) => ApplyLate(s, i, ok)
    case RecordCompletion(i, ok) => ApplyCompletion(s, i, ok)
    case AfterHook(i, ok) =>
      if !(i in s.invocations && s.invocations[i].phase.Recorded?) then None
      else if !ok || s.invocations[i].phase.executed.ExecutorError? then Some(Finish(s, i, ErrorReply))
      else Some(Finish(s, i, Result(s.invocations[i].phase.executed.result)))
  }

  function Exec(s: State, steps: seq<Step>): Option<State>
    decreases |steps|
  {
    if steps == [] then Some(s) else
    match Apply(s, steps[0])
    case Some(next) => Exec(next, steps[1..])
    case None => None
  }

  // ---- The invariant of every interleaving ----

  predicate Executes(s: State, i: InvocationId)
  {
    exists k :: 0 <= k < |s.executions| && s.executions[k].0 == i
  }

  /** The invocation owns the record of its call, which has the given status. */
  predicate Owns(s: State, i: InvocationId, status: Status)
  {
    i in s.invocations && s.invocations[i].call in s.records
    && s.records[s.invocations[i].call].owner == i && s.records[s.invocations[i].call].status == status
  }

  /** The record of `call` is `Succeeded` or `Failed`, and `result` is what it replays. */
  predicate Replays(s: State, call: CallId, result: ToolResult)
  {
    call in s.records && DuplicateResult(s.records[call].status, s.records[call].persisted) == Some(result)
  }

  /** The invocation did not start the tool, and a record of its call is another's. */
  predicate Uninvolved(s: State, i: InvocationId)
    requires i in s.invocations
  {
    var call := s.invocations[i].call;
    !Executes(s, i) && (call in s.records ==> s.records[call].owner != i)
  }

  predicate InvocationOk(s: State, i: InvocationId)
    requires i in s.invocations
  {
    match s.invocations[i].phase
    case Admitted => Uninvolved(s, i) && i !in s.returned
    case Owner => Owns(s, i, Claimed) && !Executes(s, i) && i !in s.returned
    case ReadyToExecute => Owns(s, i, Dispatched) && !Executes(s, i) && i !in s.returned
    case Executing => Owns(s, i, Dispatched) && Executes(s, i) && i !in s.returned
    case Returned(e) => Owns(s, i, Dispatched) && i in s.returned && s.returned[i].0 == e
                        && (s.returned[i].1 ==> s.invocations[i].cancelled)
    case Late(e) => Owns(s, i, Dispatched) && i in s.returned && s.returned[i].0 == e && s.invocations[i].cancelled
    case OnTime(e) => Owns(s, i, Dispatched) && i in s.returned && s.returned[i] == (e, false)
    case Recorded(e) => Owns(s, i, SideEffectCompletion(e).status) && i in s.returned && s.returned[i] == (e, false)
    case Done(Replay(result)) => Replays(s, s.invocations[i].call, result) && Uninvolved(s, i)
    case Done(Result(result)) => i in s.returned && s.returned[i] == (Finished(result), false)
    case Done(AbortedReply) =>
      && (Owns(s, i, Claimed) || Owns(s, i, Status.Cancelled) || Owns(s, i, Indeterminate))
      && (Executes(s, i) ==> s.invocations[i].cancelled)
    case Done(ErrorReply) => true
    case Done(_) => Uninvolved(s, i)
  }

  predicate Aborted(executed: Executed)
  {
    executed.Finished? && executed.result.status == ResultAborted
  }

  /** The call is past its claim, and nothing has been recorded of what the tool did, if it was started: the call
      is still under way, or it failed. */
  predicate Unrecorded(phase: Phase)
  {
    || phase.ReadyToExecute? || phase.Executing? || phase.Returned? || phase.Late? || phase.OnTime?
    || phase == Done(ErrorReply)
  }

  /** A record belongs to the invocation that created it; a finished one repeats what its execution
      returned in time, and one whose result came late is not finished as anything but unknown. A record says
      `Cancelled` of a tool that was not started or that aborted, `Dispatched` while nothing is recorded, and
      `Indeterminate` when the tool failed to say or was cancelled. */
  predicate RecordOk(s: State, call: CallId)
    requires call in s.records
  {
    var r := s.records[call];
    && r.owner in s.invocations && s.invocations[r.owner].call == call
    && (r.status == Claimed ==>
          !Executes(s, r.owner) && s.invocations[r.owner].phase in {Owner, Done(AbortedReply), Done(ErrorReply)})
    && (r.status in {Succeeded, Failed} ==>
          && r.owner in s.returned && s.returned[r.owner].0.Finished? && !s.returned[r.owner].1
          && Completion(r.status, r.persisted) == SideEffectCompletion(s.returned[r.owner].0))
    && (r.status == Status.Cancelled ==>
          if r.owner in s.returned then Aborted(s.returned[r.owner].0) else !Executes(s, r.owner))
    && (r.status == Dispatched ==> Unrecorded(s.invocations[r.owner].phase))
    && (r.status == Indeterminate ==>
          && r.owner in s.returned
          && (s.returned[r.owner].0.ExecutorError? || s.invocations[r.owner].cancelled))
    && (r.owner in s.returned && s.returned[r.owner].1 ==> r.status in {Dispatched, Indeterminate})
  }

  /** Each start of the wrapped tool is by the owner of the record, and there is one per call. */
  predicate LogOk(s: State)
  {
    && (forall k :: 0 <= k < |s.executions| ==>
          && s.executions[k].1 in s.records && s.records[s.executions[k].1].owner == s.executions[k].0
          && s.records[s.executions[k].1].status != Claimed)
    && (forall j, k :: 0 <= j < k < |s.executions| ==> s.executions[j].1 != s.executions[k].1)
    && (forall i :: i in s.returned ==> i in s.invocations && Executes(s, i))
  }

  ghost predicate Inv(s: State)
  {
    && (forall i :: i in s.invocations ==> InvocationOk(s, i))
    && (forall c :: c in s.records ==> RecordOk(s, c))
    && LogOk(s)
  }

  function Actor(step: Step): InvocationId
  {
    step.i
  }

  /** Every other invocation stays as it was. */
  ghost predicate InvocationsFrame(s: State, t: State, i: InvocationId)
  {
    && (forall j :: j != i ==> (j in s.invocations <==> j in t.invocations))
    && (forall j :: j != i && j in s.invocations ==> t.invocations[j] == s.invocations[j])
    && (forall j :: j != i ==> (j in s.returned <==> j in t.returned))
    && (forall j :: j != i && j in s.returned ==> t.returned[j] == s.returned[j])
  }

  /** Records keep their owner; those of other invocations, and those already replayable, do not change;
      a new one belongs to `i`. */
  ghost predicate RecordsFrame(s: State, t: State, i: InvocationId)
  {
    && (forall c :: c in s.records ==> c in t.records && t.records[c].owner == s.records[c].owner)
    && (forall c :: c in s.records && (s.records[c].owner != i || s.records[c].status in {Succeeded, Failed})
          ==> t.records[c] == s.records[c])
    && (forall c :: c in t.records && c !in s.records ==> t.records[c].owner == i)
  }

  /** What a step of invocation `i` may touch. */
  ghost predicate Frame(s: State, t: State, i: InvocationId)
  {
    InvocationsFrame(s, t, i) && RecordsFrame(s, t, i) && (forall j :: j != i ==> (Executes(s, j) <==> Executes(t, j)))
  }

  /** The history of starts grows at its end, by the acting invocation, when the before-hook passed. */
  lemma HistoryGrows(s: State, step: Step)
    requires Apply(s, step).Some?
    ensures var t, i := Apply(s, step).value, Actor(step);
      && t.executions == (if step.BeforeHook? && step.ok then s.executions + [(i, s.invocations[i].call)]
                          else s.executions)
      && (step.BeforeHook? ==> In(s, i, ReadyToExecute))
  {
  }

  lemma ExecutesAfter(s: State, step: Step)
    requires Apply(s, step).Some?
    ensures var t := Apply(s, step).value;
      forall j :: Executes(t, j) <==> Executes(s, j) || (step.BeforeHook? && step.ok && j == step.i)
  {
    hide Apply;
    HistoryGrows(s, step);
    var t := Apply(s, step).value;
    forall j ensures Executes(t, j) <==> Executes(s, j) || (step.BeforeHook? && step.ok && j == step.i) {
      if Executes(s, j) {
        var k :| 0 <= k < |s.executions| && s.executions[k].0 == j;
        assert t.executions[k] == s.executions[k];
      }
      if step.BeforeHook? && step.ok && j == step.i {
        assert t.executions[|s.executions|].0 == j;
      }
    }
  }

  /** Status changes are made by the owner, to its own unfinished record. */
  lemma ActsOnOwnRecord(s: State, step: Step)
    requires Inv(s) && Apply(s, step).Some?
    requires ChangesStatus(step)
    ensures Owns(s, step.i, Claimed) || Owns(s, step.i, Dispatched)
  {
    hide Executes, RecordOk, LogOk;
    assert InvocationOk(s, step.i);
  }

  lemma StepFramesInvocations(s: State, step: Step)
    requires Apply(s, step).Some?
    ensures InvocationsFrame(s, Apply(s, step).value, Actor(step))
  {
    hide InvocationsFrame;
    var t, i := Apply(s, step).value, Actor(step);
    assert t.invocations - {i} == s.invocations - {i};
    assert t.returned - {i} == s.returned - {i};
    OthersAreTheSame(s, t, i);
  }

  lemma OthersAreTheSame(s: State, t: State, i: InvocationId)
    requires t.invocations - {i} == s.invocations - {i} && t.returned - {i} == s.returned - {i}
    ensures InvocationsFrame(s, t, i)
  {
    forall j | j != i
      ensures j in s.invocations <==> j in t.invocations
      ensures j in s.invocations ==> t.invocations[j] == s.invocations[j]
    {
      assert j in s.invocations <==> j in s.invocations - {i};
      assert j in t.invocations <==> j in t.invocations - {i};
      assert j in s.invocations ==> (s.invocations - {i})[j] == (t.invocations - {i})[j];
    }
    forall j | j != i
      ensures j in s.returned <==> j in t.returned
      ensures j in s.returned ==> t.returned[j] == s.returned[j]
    {
      assert j in s.returned <==> j in s.returned - {i};
      assert j in t.returned <==> j in t.returned - {i};
      assert j in s.returned ==> (s.returned - {i})[j] == (t.returned - {i})[j];
    }
  }

  predicate ChangesStatus(step: Step)
  {
    step.AbortClaim? || step.MarkDispatched? || step.RecordLate? || step.RecordCompletion?
  }

  lemma OwnerFramesRecords(s: State, step: Step)
    requires Apply(s, step).Some?
    requires ChangesStatus(step) ==> Owns(s, step.i, Claimed) || Owns(s, step.i, Dispatched)
    ensures RecordsFrame(s, Apply(s, step).value, Actor(step))
  {
  }

  lemma StepFramesRecords(s: State, step: Step)
    requires Inv(s) && Apply(s, step).Some?
    ensures RecordsFrame(s, Apply(s, step).value, Actor(step))
  {
    hide Apply, Inv, RecordsFrame, Owns;
    if ChangesStatus(step) {
      ActsOnOwnRecord(s, step);
    }
    OwnerFramesRecords(s, step);
  }

  lemma StepFrames(s: State, step: Step)
    requires Inv(s) && Apply(s, step).Some?
    ensures Frame(s, Apply(s, step).value, Actor(step))
  {
    hide Executes, Apply, Inv, InvocationsFrame, RecordsFrame;
    StepFramesInvocations(s, step);
    StepFramesRecords(s, step);
    ExecutesAfter(s, step);
  }

  lemma OtherInvocationStaysOk(s: State, t: State, i: InvocationId, j: InvocationId)
    requires Inv(s) && Frame(s, t, i) && j in s.invocations && j != i
    ensures j in t.invocations && InvocationOk(t, j)
  {
    hide Executes, RecordOk, LogOk;
    assert InvocationOk(s, j);
  }

  lemma OtherRecordStaysOk(s: State, t: State, i: InvocationId, c: CallId)
    requires Inv(s) && Frame(s, t, i) && c in s.records && s.records[c].owner != i
    ensures c in t.records && RecordOk(t, c)
  {
    hide Executes, InvocationOk, LogOk;
    assert RecordOk(s, c);
  }

  lemma OthersStayOk(s: State, t: State, i: InvocationId)
    requires Inv(s) && Frame(s, t, i)
    ensures forall j :: j in t.invocations && j != i ==> InvocationOk(t, j)
    ensures forall c :: c in t.records && t.records[c].owner != i ==> RecordOk(t, c)
  {
    hide Executes, InvocationOk, RecordOk, LogOk;
    forall j | j in t.invocations && j != i ensures InvocationOk(t, j) {
      OtherInvocationStaysOk(s, t, i, j);
    }
    forall c | c in t.records && t.records[c].owner != i ensures RecordOk(t, c) {
      OtherRecordStaysOk(s, t, i, c);
    }
  }

  /** Steps of a call up to the start of the tool. */
  predicate IsEarly(step: Step)
  {
    !step.Return? && !step.Judge? && !step.RecordLate? && !step.RecordCompletion? && !step.AfterHook?
  }

  lemma ClaimingInvocationOk(s: State, step: Step)
    requires Inv(s) && Apply(s, step).Some? && (step.Claim? || step.ReplayLookup?)
    ensures var t, i := Apply(s, step).value, Actor(step);
      i in t.invocations && InvocationOk(t, i)
  {
    hide Executes, LogOk, RecordOk, ApplyAbort, ApplyDispatch, ApplyLate, ApplyCompletion, SideEffectCompletion;
    ExecutesAfter(s, step);
    assert InvocationOk(s, Actor(step));
  }

  lemma EarlyInvocationOk(s: State, step: Step)
    requires Inv(s) && Apply(s, step).Some? && IsEarly(step) && !step.Claim? && !step.ReplayLookup?
    ensures var t, i := Apply(s, step).value, Actor(step);
      i in t.invocations && InvocationOk(t, i)
  {
    hide Executes, LogOk, ApplyClaim, ApplyLate, ApplyCompletion, SideEffectCompletion, Unrecorded, Aborted;
    var i := Actor(step);
    ExecutesAfter(s, step);
    if step.Arrive? {
      NewcomersAreNew(s, i);
    }
  }

  lemma LateInvocationOk(s: State, step: Step)
    requires Inv(s) && Apply(s, step).Some? && !IsEarly(step)
    ensures var t, i := Apply(s, step).value, Actor(step);
      i in t.invocations && InvocationOk(t, i)
  {
    hide Executes, LogOk, RecordOk, ApplyClaim, ApplyAbort, ApplyDispatch, ReplayOrConflict, SideEffectCompletion;
    assert InvocationOk(s, Actor(step));
    ExecutesAfter(s, step);
  }

  lemma NewcomersAreNew(s: State, i: InvocationId)
    requires Inv(s) && i !in s.invocations
    ensures i !in s.returned && !Executes(s, i) && forall c :: c in s.records ==> s.records[c].owner != i
  {
  }

  lemma EarlyRecordOk(s: State, step: Step, c: CallId)
    requires Inv(s) && Apply(s, step).Some? && IsEarly(step)
    requires c in Apply(s, step).value.records && Apply(s, step).value.records[c].owner == Actor(step)
    ensures RecordOk(Apply(s, step).value, c)
  {
    hide Executes, LogOk, ApplyLate, ApplyCompletion;
    ExecutesAfter(s, step);
    if step.Arrive? {
      NewcomersAreNew(s, step.i);
    }
    assert c in s.records ==> RecordOk(s, c);
  }

  lemma LateResultRecordOk(s: State, step: Step, c: CallId)
    requires Inv(s) && Apply(s, step).Some? && step.RecordLate?
    requires c in Apply(s, step).value.records && Apply(s, step).value.records[c].owner == Actor(step)
    ensures RecordOk(Apply(s, step).value, c)
  {
    hide Executes, LogOk, ApplyClaim, ApplyAbort, ApplyDispatch, ApplyCompletion, SideEffectCompletion, DuplicateResult;
    ExecutesAfter(s, step);
    assert InvocationOk(s, Actor(step)) && RecordOk(s, c);
  }

  lemma CompletionRecordOk(s: State, step: Step, c: CallId)
    requires Inv(s) && Apply(s, step).Some? && step.RecordCompletion?
    requires c in Apply(s, step).value.records && Apply(s, step).value.records[c].owner == Actor(step)
    ensures RecordOk(Apply(s, step).value, c)
  {
    hide Executes, LogOk, ApplyClaim, ApplyAbort, ApplyDispatch, ApplyLate, DuplicateResult;
    ExecutesAfter(s, step);
    assert InvocationOk(s, Actor(step)) && RecordOk(s, c);
  }

  /** The other late steps leave the records alone. */
  lemma LateRecordOk(s: State, step: Step, c: CallId)
    requires Inv(s) && Apply(s, step).Some? && (step.Return? || step.Judge? || step.AfterHook?)
    requires c in Apply(s, step).value.records && Apply(s, step).value.records[c].owner == Actor(step)
    ensures RecordOk(Apply(s, step).value, c)
  {
    hide Executes, LogOk, ApplyClaim, ApplyAbort, ApplyDispatch, ApplyLate, ApplyCompletion, DuplicateResult;
    ExecutesAfter(s, step);
    assert InvocationOk(s, Actor(step)) && RecordOk(s, c);
  }

  /** A record once past `Claimed` keeps its owner and never returns there. */
  lemma NothingIsUnclaimed(s: State, step: Step)
    requires Apply(s, step).Some?
    ensures var t := Apply(s, step).value;
      forall c :: c in s.records && s.records[c].status != Claimed ==>
        c in t.records && t.records[c].owner == s.records[c].owner && t.records[c].status != Claimed
  {
    hide SideEffectCompletion;
  }

  /** A result is only recorded for a started invocation. */
  lemma OnlyStartedReturn(s: State, step: Step)
    requires Apply(s, step).Some?
    ensures var t := Apply(s, step).value;
      && (forall i :: i in t.returned && i !in s.returned ==> i in s.invocations && s.invocations[i].phase == Executing)
      && (forall i :: i in s.invocations ==> i in t.invocations)
  {
    hide SideEffectCompletion;
  }

  lemma LogStaysOk(s: State, step: Step)
    requires Inv(s) && Apply(s, step).Some?
    ensures LogOk(Apply(s, step).value)
  {
    hide Apply, RecordOk, Executes;
    NothingIsUnclaimed(s, step);
    OnlyStartedReturn(s, step);
    HistoryGrows(s, step);
    ExecutesAfter(s, step);
    if step.BeforeHook? && step.ok {
      StartIsFirst(s, step.i);
    }
  }

  /** An invocation about to start owns its dispatched record, so nobody started for that call before. */
  lemma StartIsFirst(s: State, i: InvocationId)
    requires Inv(s) && In(s, i, ReadyToExecute)
    ensures Owns(s, i, Dispatched)
    ensures forall k :: 0 <= k < |s.executions| ==> s.executions[k].1 != s.invocations[i].call
  {
    assert InvocationOk(s, i);
  }

  lemma StepKeepsInv(s: State, step: Step)
    requires Inv(s) && Apply(s, step).Some?
    ensures Inv(Apply(s, step).value)
  {
    hide Apply, Frame, InvocationOk, RecordOk, LogOk;
    var t, i := Apply(s, step).value, Actor(step);
    StepFrames(s, step);
    OthersStayOk(s, t, i);
    if step.Claim? || step.ReplayLookup? {
      ClaimingInvocationOk(s, step);
    } else if IsEarly(step) {
      EarlyInvocationOk(s, step);
    } else {
      LateInvocationOk(s, step);
    }
    forall c | c in t.records && t.records[c].owner == i ensures RecordOk(t, c) {
      if IsEarly(step) {
        EarlyRecordOk(s, step, c);
      } else if step.RecordLate? {
        LateResultRecordOk(s, step, c);
      } else if step.RecordCompletion? {
        CompletionRecordOk(s, step, c);
      } else {
        LateRecordOk(s, step, c);
      }
    }
    LogStaysOk(s, step);
  }

  lemma {:induction false} ExecKeepsInv(s: State, steps: seq<Step>)
    requires Inv(s) && Exec(s, steps).Some?
    ensures Inv(Exec(s, steps).value)
    decreases |steps|
  {
    hide Inv, Apply;
    if steps != [] {
      StepKeepsInv(s, steps[0]);
      ExecKeepsInv(Apply(s, steps[0]).value, steps[1..]);
    }
  }

  // ---- Safety over all interleavings ----

  /** At most one start of the wrapped tool per call, and only by the invocation that created the claim
      and moved it out of `Claimed`. */
  lemma AtMostOneExecution(steps: seq<Step>)
    requires Exec(START, steps).Some?
    ensures var s := Exec(START, steps).value;
      && (forall j, k :: 0 <= j < k < |s.executions| ==> s.executions[j].1 != s.executions[k].1)
      && (forall k :: 0 <= k < |s.executions| ==>
            var (i, call) := s.executions[k];
            && call in s.records && s.records[call].owner == i && s.records[call].status != Claimed
            && i in s.invocations && s.invocations[i].call == call)
  {
    hide Apply;
    ExecKeepsInv(START, steps);
    var s := Exec(START, steps).value;
    forall k | 0 <= k < |s.executions|
      ensures s.executions[k].0 in s.invocations && s.invocations[s.executions[k].0].call == s.executions[k].1
    {
      assert RecordOk(s, s.executions[k].1);
    }
  }

  /** A replayed reply repeats the one execution of its call, which returned before any cancellation:
      it is a success exactly when that execution succeeded, and it is the original result exactly when
      nothing of that had to be left out. */
  lemma ReplayTellsWhatHappened(steps: seq<Step>, i: InvocationId, result: ToolResult)
    requires Exec(START, steps).Some? && In(Exec(START, steps).value, i, Done(Replay(result)))
    ensures var s := Exec(START, steps).value;
      var call := s.invocations[i].call;
      && call in s.records && var owner := s.records[call].owner;
      && owner in s.returned && s.returned[owner].0.Finished? && !s.returned[owner].1
      && Executes(s, owner)
      && var original := s.returned[owner].0.result;
         && (result.status == ResultSucceeded <==> original.status == ResultSucceeded)
         && (result == original <==> Faithful(original))
  {
    hide Apply;
    ExecKeepsInv(START, steps);
    var s := Exec(START, steps).value;
    assert InvocationOk(s, i);
    var record := s.records[s.invocations[i].call];
    assert RecordOk(s, s.invocations[i].call);
    ReplayIsFaithfulIff(s.returned[record.owner].0);
  }

  /** A result that came after cancellation is never reported: not by its own call, whose record stays
      unfinished or unknown, and not to any duplicate, now or later. */
  lemma LateResultIsNeverReported(steps: seq<Step>, owner: InvocationId, i: InvocationId)
    requires Exec(START, steps).Some?
    requires var s := Exec(START, steps).value;
      && owner in s.returned && s.returned[owner].1
      && owner in s.invocations && i in s.invocations && s.invocations[i].call == s.invocations[owner].call
    ensures var s := Exec(START, steps).value;
      && s.invocations[owner].call in s.records
      && s.records[s.invocations[owner].call].status in {Dispatched, Indeterminate}
      && !(s.invocations[i].phase.Done? && s.invocations[i].phase.reply.Replay?)
      && !(s.invocations[i].phase.Done? && s.invocations[i].phase.reply.Result?)
  {
    ExecKeepsInv(START, steps);
    hide Inv;
    LateRecord(Exec(START, steps).value, owner);
    LateRecordIsNotTold(Exec(START, steps).value, owner, i);
  }

  /** Whoever has a result owns the record of its call. */
  lemma LateRecord(s: State, owner: InvocationId)
    requires Inv(s) && owner in s.returned
    ensures owner in s.invocations && s.invocations[owner].call in s.records
    ensures s.records[s.invocations[owner].call].owner == owner
    ensures s.returned[owner].1 ==> s.records[s.invocations[owner].call].status in {Dispatched, Indeterminate}
  {
    var k :| 0 <= k < |s.executions| && s.executions[k].0 == owner;
    assert RecordOk(s, s.executions[k].1);
  }

  lemma LateRecordIsNotTold(s: State, owner: InvocationId, i: InvocationId)
    requires Inv(s) && owner in s.returned && s.returned[owner].1
    requires owner in s.invocations && i in s.invocations && s.invocations[i].call == s.invocations[owner].call
    ensures !(s.invocations[i].phase.Done? && s.invocations[i].phase.reply.Replay?)
    ensures !(s.invocations[i].phase.Done? && s.invocations[i].phase.reply.Result?)
  {
    LateRecord(s, owner);
    assert InvocationOk(s, i);
    if i in s.returned {
      LateRecord(s, i);
    }
  }

  /** What has happened to the call whose record a duplicate finds. */
  predicate IsTrueOf(s: State, owner: InvocationId, status: Status)
    requires owner in s.invocations
  {
    match status
    case Claimed => !Executes(s, owner) && owner !in s.returned
    case Cancelled => if owner in s.returned then Aborted(s.returned[owner].0) && !s.returned[owner].1
                      else !Executes(s, owner)
    case Dispatched => Unrecorded(s.invocations[owner].phase)
    case Indeterminate =>
      Executes(s, owner) && owner in s.returned
      && (s.returned[owner].0.ExecutorError? || s.invocations[owner].cancelled)
    case _ => false
  }

  /** At any moment of any interleaving a duplicate is told at once what is true of the call it repeats: its
      recorded result, or a rejection naming a state that has a reason in what happened; so no duplicate is told of
      a cancellation when the tool was started and did not abort. With other parameters it is told of an error. */
  lemma DuplicateIsToldTheTruth(steps: seq<Step>, i: InvocationId, step: Step)
    requires Exec(START, steps).Some? && In(Exec(START, steps).value, i, Admitted)
    requires step == Claim(i, true) || step == ReplayLookup(i)
    requires Exec(START, steps).value.invocations[i].call in Exec(START, steps).value.records
    ensures var s := Exec(START, steps).value;
      var record := s.records[s.invocations[i].call];
      && record.owner in s.invocations && Apply(s, step).Some?
      && var phase := Apply(s, step).value.invocations[i].phase;
      && phase.Done?
      && if record.parameters != s.invocations[i].parameters then phase.reply == ErrorReply
         else IsTold(s, record.owner, phase.reply)
  {
    ExecKeepsInv(START, steps);
    hide Inv, IsTold, DuplicateReply;
    RecordTellsTheTruth(Exec(START, steps).value, Exec(START, steps).value.invocations[i].call);
  }

  lemma RecordTellsTheTruth(s: State, call: CallId)
    requires Inv(s) && call in s.records
    ensures s.records[call].owner in s.invocations
    ensures IsTold(s, s.records[call].owner, DuplicateReply(s.records[call]))
  {
    OwnerHistory(s, call);
    hide Executes, LogOk, InvocationOk;
    var owner := s.records[call].owner;
    assert RecordOk(s, call);
    if owner in s.returned && s.returned[owner].0.Finished? {
      WhatIsPersisted(s.returned[owner].0.result);
    }
  }

  predicate IsTold(s: State, owner: InvocationId, reply: Reply)
    requires owner in s.invocations
  {
    match reply
    case Replay(result) =>
      && owner in s.returned && s.returned[owner].0.Finished? && !s.returned[owner].1
      && !Aborted(s.returned[owner].0)
      && KeptOf(result.modelContent, result.structured, s.returned[owner].0.result)
    case NotReplayed(status) => IsTrueOf(s, owner, status)
    case _ => false
  }

  /** A result belongs to a started call, and a claimed record to one that was not started. */
  lemma OwnerHistory(s: State, call: CallId)
    requires Inv(s) && call in s.records
    ensures var owner := s.records[call].owner;
      && owner in s.invocations
      && (owner in s.returned ==> Executes(s, owner))
      && (s.records[call].status == Claimed ==> owner !in s.returned)
      && (s.records[call].status == Status.Cancelled && owner in s.returned ==> !s.returned[owner].1)
  {
    assert RecordOk(s, call);
  }

  /** What a call is told agrees with what it did: a call that was denied, rejected or answered from a record did
      not start the tool and left no record; one told of an abort left one that was not finished, and started the
      tool only if it was then cancelled; one that gets a result started the tool and had it return that result
      before any cancellation. */
  lemma RepliesTellWhatWasDone(steps: seq<Step>, i: InvocationId)
    requires Exec(START, steps).Some? && i in Exec(START, steps).value.invocations
    ensures var s := Exec(START, steps).value;
      match s.invocations[i].phase
      case Done(DeniedReply) => Uninvolved(s, i)
      case Done(NotReplayed(_)) => Uninvolved(s, i)
      case Done(Replay(_)) => Uninvolved(s, i)
      case Done(AbortedReply) =>
        && (Owns(s, i, Claimed) || Owns(s, i, Status.Cancelled) || Owns(s, i, Indeterminate))
        && (Executes(s, i) ==> Cancel(i) in steps)
      case Done(Result(result)) => Executes(s, i) && i in s.returned && s.returned[i] == (Finished(result), false)
      case _ => true
  {
    hide Apply, Executes;
    ExecKeepsInv(START, steps);
    CancelledIff(START, steps, i);
    assert InvocationOk(Exec(START, steps).value, i);
  }

  lemma StepCancels(s: State, step: Step, i: InvocationId)
    requires Apply(s, step).Some?
    requires i !in s.invocations ==> !step.Cancel? || step.i != i
    ensures var t := Apply(s, step).value;
      && (i in s.invocations ==> i in t.invocations)
      && (i in t.invocations ==>
            (t.invocations[i].cancelled <==> (i in s.invocations && s.invocations[i].cancelled) || step == Cancel(i)))
  {
  }

  /** An invocation is cancelled if and only if somebody cancelled it. */
  lemma {:induction false} CancelledIff(s: State, steps: seq<Step>, i: InvocationId)
    requires Exec(s, steps).Some? && i in Exec(s, steps).value.invocations
    ensures Exec(s, steps).value.invocations[i].cancelled <==>
      (i in s.invocations && s.invocations[i].cancelled) || Cancel(i) in steps
    decreases |steps|
  {
    hide Apply;
    if steps != [] {
      CancelNeedsInvocation(s, steps[0]);
      StepCancels(s, steps[0], i);
      CancelledIff(Apply(s, steps[0]).value, steps[1..], i);
      assert Cancel(i) in steps <==> steps[0] == Cancel(i) || Cancel(i) in steps[1..];
    }
  }

  lemma CancelNeedsInvocation(s: State, step: Step)
    ensures Apply(s, step).Some? && step.Cancel? ==> step.i in s.invocations
  {
  }

  // ---- Calls arrive and end ----

  lemma StepKeepsCall(s: State, step: Step, i: InvocationId)
    requires Apply(s, step).Some? && i in Apply(s, step).value.invocations
    ensures var me := Apply(s, step).value.invocations[i];
      if i in s.invocations then me.call == s.invocations[i].call && me.parameters == s.invocations[i].parameters
      else step == Arrive(i, me.call, me.parameters)
  {
  }

  /** Every invocation is for the call and with the parameters it arrived with, to the end. */
  lemma {:induction false} CallsAreAsTheyArrived(s: State, steps: seq<Step>, i: InvocationId)
    requires Exec(s, steps).Some? && i in Exec(s, steps).value.invocations
    ensures var me := Exec(s, steps).value.invocations[i];
      || Arrive(i, me.call, me.parameters) in steps
      || (i in s.invocations && me.call == s.invocations[i].call && me.parameters == s.invocations[i].parameters)
    decreases |steps|
  {
    hide Apply;
    if steps != [] {
      var next := Apply(s, steps[0]).value;
      CallsAreAsTheyArrived(next, steps[1..], i);
      var me := Exec(s, steps).value.invocations[i];
      assert Arrive(i, me.call, me.parameters) in steps[1..] ==> Arrive(i, me.call, me.parameters) in steps;
      if i in next.invocations {
        StepKeepsCall(s, steps[0], i);
      }
    }
  }

  function Stage(phase: Phase): nat
  {
    match phase
    case Admitted => 0
    case Owner => 1
    case ReadyToExecute => 2
    case Executing => 3
    case Returned(_) => 4
    case Late(_) => 5
    case OnTime(_) => 5
    case Recorded(_) => 6
    case Done(_) => 7
  }

  /** Every step of a call but its arrival and cancellation takes it further, so it ends after at most seven. */
  lemma EveryStepAdvances(s: State, step: Step)
    requires Apply(s, step).Some? && !step.Arrive? && !step.Cancel?
    ensures var t, i := Apply(s, step).value, step.i;
      && i in s.invocations && i in t.invocations
      && Stage(t.invocations[i].phase) > Stage(s.invocations[i].phase)
  {
    hide SideEffectCompletion, DuplicateResult;
  }

  /** The steps that are a call's next whatever the store, the hooks and the tool do. */
  function NextStep(phase: Phase, i: InvocationId, ok: bool, executed: Executed): Step
    requires !phase.Done?
  {
    match phase
    case Admitted => Claim(i, ok)
    case Owner => MarkDispatched(i, ok, ok)
    case ReadyToExecute => BeforeHook(i, ok)
    case Executing => Return(i, executed)
    case Returned(_) => Judge(i)
    case Late(_) => RecordLate(i, ok)
    case OnTime(_) => RecordCompletion(i, ok)
    case Recorded(_) => AfterHook(i, ok)
  }

  /** At any moment a call that has no answer yet can take its next step, however the store, the hooks and the tool
      answer, and a call that is not yet claimed can be denied and is then told so. */
  lemma NobodyIsStuck(s: State, i: InvocationId, ok: bool, executed: Executed)
    requires i in s.invocations && !s.invocations[i].phase.Done?
    ensures Apply(s, NextStep(s.invocations[i].phase, i, ok, executed)).Some?
    ensures s.invocations[i].phase == Admitted ==>
      Apply(s, Deny(i)) == Some(s.(invocations := s.invocations[i := s.invocations[i].(phase := Done(DeniedReply))]))
  {
    hide SideEffectCompletion, DuplicateResult;
  }

  // ---- The store and one call, in the source's own form ----

  ghost predicate Reachable(s: State)
  {
    exists steps :: Exec(START, steps) == Some(s)
  }

  lemma {:induction false} ExecSnoc(s: State, steps: seq<Step>, step: Step)
    requires Exec(s, steps).Some? && Apply(Exec(s, steps).value, step).Some?
    ensures Exec(s, steps + [step]) == Apply(Exec(s, steps).value, step)
    decreases |steps|
  {
    hide Apply;
    if steps == [] {
      assert [] + [step] == [step] && [step][1..] == [];
    } else {
      assert (steps + [step])[1..] == steps[1..] + [step];
      ExecSnoc(Apply(s, steps[0]).value, steps[1..], step);
    }
  }

  lemma ReachableStep(s: State, step: Step)
    requires Reachable(s) && Apply(s, step).Some?
    ensures Reachable(Apply(s, step).value)
  {
    hide Apply;
    var steps :| Exec(START, steps) == Some(s);
    ExecSnoc(START, steps, step);
  }

  /** What the surroundings of one call do while nobody else interferes. */
  datatype Environment = Environment(
    claimAccepted: bool,
    cancelledAfterClaim: bool,
    cancelAccepted: bool,
    dispatchAccepted: bool,
    beforeHookOk: bool,
    tool: Executed,
    cancelledMeanwhile: bool,
    finishAccepted: bool,
    afterHookOk: bool)

  class ClaimStore {
    var records: map<CallId, Record>
    ghost var history: State

    ghost predicate Valid()
      reads this
    {
      history.records == records && Reachable(history)
    }

    constructor ()
      ensures Valid() && history == START
    {
      records := map[];
      history := START;
      new;
      assert Exec(START, []) == Some(START);
    }

    ghost method Note(step: Step)
      requires Reachable(history) && Apply(history, step).Some?
      modifies this`history
      ensures Apply(old(history), step) == Some(history) && Reachable(history)
    {
      ReachableStep(history, step);
      history := Apply(history, step).value;
    }

    /** The tool returned, and its invocation was found cancelled or not. */
    ghost method NoteReturn(i: InvocationId, executed: Executed)
      requires Reachable(history) && In(history, i, Executing)
      modifies this`history
      ensures Reachable(history) && i in history.invocations
      ensures history.records == old(history).records && history.executions == old(history).executions
      ensures var was := old(history).invocations[i];
        history.invocations[i] == was.(phase := if was.cancelled then Late(executed) else OnTime(executed))
    {
      hide Reachable;
      Note(Return(i, executed));
      Note(Judge(i));
    }

    /** Atomic insert-if-absent. */
    method ClaimSideEffect(i: InvocationId, call: CallId, parameters: Hash) returns (created: bool, record: Record)
      modifies this`records
      ensures created <==> call !in old(records)
      ensures record == if created then Record(i, parameters, Claimed, None) else old(records)[call]
      ensures records == old(records)[call := record]
    {
      if call in records {
        return false, records[call];
      }
      record := Record(i, parameters, Claimed, None);
      records := records[call := record];
      created := true;
    }

    method TransitionSideEffect(call: CallId, expected: Status, next: Status, persisted: Option<Persisted>)
      returns (accepted: bool)
      modifies this`records
      ensures accepted <==> call in old(records) && old(records)[call].status == expected
      ensures records == if accepted
                         then old(records)[call := old(records)[call].(status := next, persisted := persisted)]
                         else old(records)
    {
      accepted := call in records && records[call].status == expected;
      if accepted {
        records := records[call := records[call].(status := next, persisted := persisted)];
      }
    }

    /** The claim: None when it was created, and otherwise the reply of a refused or duplicate call. */
    method TryClaim(i: InvocationId, call: CallId, parameters: Hash, accepted: bool) returns (reply: Option<Reply>)
      requires Valid() && i in history.invocations
      requires history.invocations[i] == Invocation(call, parameters, false, Admitted)
      modifies this
      ensures Valid() && i in history.invocations && history.executions == old(history).executions
      ensures reply.None? <==> accepted && call !in old(records)
      ensures reply.None? ==>
        && history.invocations[i] == Invocation(call, parameters, false, Owner)
        && records == old(records)[call := Record(i, parameters, Claimed, None)]
      ensures reply.Some? ==>
        && In(history, i, Done(reply.value)) && records == old(records)
        && reply.value == if !accepted || old(records)[call].parameters != parameters then ErrorReply
                          else DuplicateReply(old(records)[call])
    {
      hide Reachable;
      Note(Claim(i, accepted));
      if !accepted {
        return Some(ErrorReply);
      }
      var created, record := ClaimSideEffect(i, call, parameters);
      if !created {
        if record.parameters != parameters {
          return Some(ErrorReply);
        }
        return Some(DuplicateReply(record));
      }
      reply := None;
    }

    /** From a fresh claim to the start of the tool: None when it was started. */
    method Dispatch(i: InvocationId, call: CallId, env: Environment) returns (reply: Option<Reply>)
      requires Valid() && In(history, i, Owner)
      requires history.invocations[i].call == call && !history.invocations[i].cancelled
      requires call in records && records[call].status == Claimed
      modifies this
      ensures Valid() && i in history.invocations
      ensures call in records && records == old(records)[call := records[call]]
      ensures SameClaim(records[call], old(records)[call])
      ensures reply.None? <==> !env.cancelledAfterClaim && env.dispatchAccepted && env.beforeHookOk
      ensures reply.None? ==>
        && history.invocations[i] == old(history).invocations[i].(phase := Executing)
        && records[call].status == Dispatched
        && history.executions == old(history).executions + [(i, call)]
      ensures reply.Some? ==>
        && In(history, i, Done(reply.value)) && history.executions == old(history).executions
        && reply.value == StoppedReply(env) && records[call].status == StoppedStatus(env)
    {
      hide Reachable;
      if env.cancelledAfterClaim {
        Note(Cancel(i));
        Note(AbortClaim(i, env.cancelAccepted));
        if !env.cancelAccepted {
          return Some(ErrorReply);
        }
        var accepted := TransitionSideEffect(call, Claimed, Status.Cancelled, None);
        return Some(AbortedReply);
      }
      Note(MarkDispatched(i, env.dispatchAccepted, env.cancelAccepted));
      if !env.dispatchAccepted {
        if env.cancelAccepted {
          var accepted := TransitionSideEffect(call, Claimed, Status.Cancelled, None);
        }
        return Some(AbortedReply);
      }
      var dispatched := TransitionSideEffect(call, Claimed, Dispatched, None);
      Note(BeforeHook(i, env.beforeHookOk));
      if !env.beforeHookOk {
        return Some(ErrorReply);
      }
      reply := None;
    }

    /** The tool returned after its invocation was cancelled. */
    method FinishLate(i: InvocationId, call: CallId, env: Environment) returns (reply: Reply)
      requires Valid() && In(history, i, Executing)
      requires history.invocations[i].call == call && call in records && records[call].status == Dispatched
      modifies this
      ensures Valid() && In(history, i, Done(reply)) && history.executions == old(history).executions
      ensures call in records && records == old(records)[call := records[call]]
      ensures SameClaim(records[call], old(records)[call])
      ensures reply == (if env.finishAccepted then AbortedReply else ErrorReply)
      ensures records[call].status == if env.finishAccepted then Indeterminate else Dispatched
    {
      hide Reachable, SideEffectCompletion, DuplicateResult, ApplyClaim, ApplyAbort, ApplyDispatch, ApplyCompletion;
      Note(Cancel(i));
      NoteReturn(i, env.tool);
      Note(RecordLate(i, env.finishAccepted));
      if !env.finishAccepted {
        return ErrorReply;
      }
      var accepted := TransitionSideEffect(call, Dispatched, Indeterminate, None);
      return AbortedReply;
    }

    method FinishOnTime(i: InvocationId, call: CallId, env: Environment) returns (reply: Reply)
      requires Valid() && In(history, i, Executing) && !history.invocations[i].cancelled
      requires history.invocations[i].call == call && call in records && records[call].status == Dispatched
      modifies this
      ensures Valid() && In(history, i, Done(reply)) && history.executions == old(history).executions
      ensures call in records && records == old(records)[call := records[call]]
      ensures SameClaim(records[call], old(records)[call])
      ensures reply == if env.finishAccepted && env.afterHookOk && env.tool.Finished? then Result(env.tool.result)
                       else ErrorReply
      ensures var c := SideEffectCompletion(env.tool);
        if env.finishAccepted then Completion(records[call].status, records[call].persisted) == c
        else records[call].status == Dispatched
    {
      hide Reachable, SideEffectCompletion, DuplicateResult, ApplyClaim, ApplyAbort, ApplyDispatch, ApplyLate;
      NoteReturn(i, env.tool);
      Note(RecordCompletion(i, env.finishAccepted));
      if !env.finishAccepted {
        return ErrorReply;
      }
      var completion := SideEffectCompletion(env.tool);
      var recorded := TransitionSideEffect(call, Dispatched, completion.status, completion.persisted);
      Note(AfterHook(i, env.afterHookOk));
      if !env.afterHookOk || env.tool.ExecutorError? {
        return ErrorReply;
      }
      return Result(env.tool.result);
    }

    /** One call from the claim to its reply. The run it adds to the history is a run of the protocol, so
        everything proved of interleavings holds of it; the tool starts exactly when the claim is new and
        nothing stops the call before, and no record but the call's own changes. */
    method Execute(i: InvocationId, call: CallId, parameters: Hash, env: Environment) returns (reply: Reply)
      requires Valid() && i in history.invocations
      requires history.invocations[i] == Invocation(call, parameters, false, Admitted)
      modifies this
      ensures Valid() && In(history, i, Done(reply))
      ensures history.executions == if Starts(old(records), call, env) then old(history).executions + [(i, call)]
                                    else old(history).executions
      ensures call in old(records) ==> records == old(records)
      ensures forall c :: c != call ==> (c in records <==> c in old(records))
      ensures forall c :: c != call && c in records ==> records[c] == old(records)[c]
      ensures reply == ReplyTo(old(records), call, parameters, env)
      ensures env.claimAccepted && call !in old(records) ==>
        && call in records && records[call].owner == i && records[call].parameters == parameters
        && LeftBehind(records[call], env)
    {
      hide Reachable;
      var early := TryClaim(i, call, parameters, env.claimAccepted);
      if early.Some? {
        return early.value;
      }
      early := Dispatch(i, call, env);
      if early.Some? {
        return early.value;
      }
      if env.cancelledMeanwhile {
        reply := FinishLate(i, call, env);
      } else {
        reply := FinishOnTime(i, call, env);
      }
    }
  }

  predicate SameClaim(a: Record, b: Record)
  {
    a.owner == b.owner && a.parameters == b.parameters
  }

  /** Nothing stops the call before its tool starts. */
  predicate Starts(records: map<CallId, Record>, call: CallId, env: Environment)
  {
    && env.claimAccepted && call !in records && !env.cancelledAfterClaim
    && env.dispatchAccepted && env.beforeHookOk
  }

  /** What a call that owns its claim is told, and the status it leaves, when it is stopped before its tool
      starts. */
  function StoppedReply(env: Environment): Reply
  {
    if env.cancelledAfterClaim then (if env.cancelAccepted then AbortedReply else ErrorReply)
    else if !env.dispatchAccepted then AbortedReply
    else ErrorReply
  }

  function StoppedStatus(env: Environment): Status
  {
    if env.cancelledAfterClaim || !env.dispatchAccepted then
      if env.cancelAccepted then Status.Cancelled else Claimed
    else Dispatched
  }

  /** What an undisturbed call is told. */
  function ReplyTo(records: map<CallId, Record>, call: CallId, parameters: Hash, env: Environment): Reply
  {
    if !env.claimAccepted then ErrorReply
    else if call in records then
      if records[call].parameters != parameters then ErrorReply else DuplicateReply(records[call])
    else if !Starts(records, call, env) then StoppedReply(env)
    else if env.cancelledMeanwhile then (if env.finishAccepted then AbortedReply else ErrorReply)
    else if env.finishAccepted && env.afterHookOk && env.tool.Finished? then Result(env.tool.result)
    else ErrorReply
  }

  /** The record an undisturbed call that created its claim leaves behind. */
  predicate LeftBehind(record: Record, env: Environment)
  {
    if env.cancelledAfterClaim || !env.dispatchAccepted || !env.beforeHookOk then record.status == StoppedStatus(env)
    else if !env.finishAccepted then record.status == Dispatched
    else if env.cancelledMeanwhile then record.status == Indeterminate
    else Completion(record.status, record.persisted) == SideEffectCompletion(env.tool)
  }

  /** What the next duplicate of an undisturbed call is told, for every way the first call can have ended: the
      recorded result where it got one, and otherwise how far it came. */
  lemma DuplicateOfUndisturbedCall(records: map<CallId, Record>, call: CallId, env: Environment, record: Record)
    requires env.claimAccepted && call !in records && LeftBehind(record, env)
    ensures var told := DuplicateReply(record);
      if env.cancelledAfterClaim || !env.dispatchAccepted then
        told == NotReplayed(if env.cancelAccepted then Status.Cancelled else Claimed)
      else if !env.beforeHookOk || !env.finishAccepted then told == NotReplayed(Dispatched)
      else if env.cancelledMeanwhile || env.tool.ExecutorError? then told == NotReplayed(Indeterminate)
      else if env.tool.result.status == ResultAborted then told == NotReplayed(Status.Cancelled)
      else
        && told.Replay?
        && (told.result.status == ResultSucceeded <==> env.tool.result.status == ResultSucceeded)
        && KeptOf(told.result.modelContent, told.result.structured, env.tool.result)
        && (told.result == env.tool.result <==> Faithful(env.tool.result))
  {
  }

  /** Where the store, the hooks and the tool all do their part, a new call is never told of an error: it gets the
      tool's own result, unless it was cancelled. */
  lemma UnfailingCallIsAnswered(records: map<CallId, Record>, call: CallId, parameters: Hash, env: Environment)
    requires env.claimAccepted && env.cancelAccepted && env.dispatchAccepted && env.beforeHookOk
    requires env.finishAccepted && env.afterHookOk && env.tool.Finished? && call !in records
    ensures ReplyTo(records, call, parameters, env)
         == if env.cancelledAfterClaim || env.cancelledMeanwhile then AbortedReply else Result(env.tool.result)
  {
  }

  /** A call that owns its claim gets the tool's result, or is told of an abort or an error, and when. */
  lemma OwnerIsTold(records: map<CallId, Record>, call: CallId, parameters: Hash, env: Environment)
    requires env.claimAccepted && call !in records
    ensures var reply := ReplyTo(records, call, parameters, env);
      && (reply == AbortedReply <==>
            // cancelled before the dispatch, and the record says so
            || (env.cancelledAfterClaim && env.cancelAccepted)
            // refused at the dispatch
            || (!env.cancelledAfterClaim && !env.dispatchAccepted)
            // cancelled while the tool was running, and the record says so
            || (Starts(records, call, env) && env.cancelledMeanwhile && env.finishAccepted))
      && (reply != AbortedReply ==>
            || reply == ErrorReply
            || (Starts(records, call, env) && env.tool.Finished? && reply == Result(env.tool.result)))
  {
  }
}
