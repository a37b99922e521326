/** The translator of log rows and stream conclusions into session updates (plurnk-acp/src/SessionTranslator.ts). An
    update keeps its kind, the call and the statuses it reports and the row it is about; the rest of its payload is a
    function of that row. */
module Translator {

  import opened Optional
  import opened Sequences

  datatype RowState = Proposed | Failed | Cancelled | OtherState

  datatype ToolStatus = Pending | InProgress | Completed | FailedCall

  /** The name of a tool call: the logical coordinate of its row, or whatever else an invocation refers to. */
  datatype CallId = At(loopSeq: nat, turnSeq: nat, sequence: nat) | Named(ref: string)

  /** A log row. `answers`, `message` and `attempted` say which of the special shapes it has, `invocation` is the call it
      completes, `items` are the todo items of its text, and `killed` are the numbers of the log coordinate its address names: a
      loop's, a turn's or a row's. */
  datatype Row = Row(id: int, sessionId: int, loopSeq: nat, turnSeq: nat, sequence: nat, turnId: int, op: Option<string>,
    state: RowState, statusRx: int, stream: Option<string>, reasoning: bool, answers: bool, invocation: Option<CallId>,
    message: bool, attempted: bool, items: seq<string>, killed: Option<seq<nat>>, inherited: bool, address: Option<string>)

  datatype Update =
    | Thought(turnId: int)
    | AgentMessage(entryId: int)
    | UserMessage(entryId: int)
    | Notice(entryId: int)
    | ToolCall(entryId: int, callId: CallId, status: ToolStatus, effective: int)
    | Terminal(entryId: int, cancellable: bool, exitCode: Option<int>)
    | Plan(entryId: int, items: seq<string>, pending: set<string>)
    | PlanRemoved(entryId: int)

  datatype State = State(sessionId: int, streamedReasoning: set<int>,
    toolCallByEntry: map<int, CallId>, toolCallByTarget: map<string, CallId>,
    concludedByEntry: map<int, int>, concludedByTarget: map<string, int>,
    plans: set<CallId>, todoLoopSeq: Option<nat>, todoHistory: seq<string>)

  datatype Output = Output(state: State, updates: seq<Update>)

  function Fresh(sessionId: int): State {
    State(sessionId, {}, map[], map[], map[], map[], {}, None, [])
  }

  // ----- what a row says by itself -----

  function Coordinate(row: Row): CallId {
    At(row.loopSeq, row.turnSeq, row.sequence)
  }

  function ToolStatusOf(row: Row): ToolStatus {
    if row.state == Proposed then Pending
    else if row.state == Failed || row.state == Cancelled || row.statusRx >= 400 then FailedCall
    else if row.stream.Some? then InProgress
    else Completed
  }

  /** A row that starts a tool call. */
  predicate StartsCall(r: Row) {
    !r.answers && r.invocation.None? && !r.message && r.op.Some? && r.op != Some("error")
  }

  /** A row that starts a tool call whose stream is still open. */
  predicate Streams(r: Row) {
    StartsCall(r) && ToolStatusOf(r) == InProgress
  }

  /** How a concluded stream leaves its call. */
  function Outcome(status: int): ToolStatus {
    if status < 400 then Completed else FailedCall
  }

  function ExitCode(status: int): int {
    if status == 200 then 0 else status
  }

  /** The stream address a row or a conclusion is known by; an empty one names nothing. */
  function Address(target: Option<string>): Option<string> {
    if target == Some("") then None else target
  }

  function Without(items: seq<string>, gone: seq<string>): seq<string>
    decreases |items|
  {
    if items == [] then []
    else (if items[0] in gone then [] else [items[0]]) + Without(items[1..], gone)
  }

  function AppendNew(history: seq<string>, items: seq<string>): seq<string>
    decreases |items|
  {
    if items == [] then history
    else AppendNew(if items[0] in history then history else history + [items[0]], items[1..])
  }

  /** What a loop's plan lists after another todo: the items it no longer names first. */
  function MergeTodo(history: seq<string>, items: seq<string>): seq<string> {
    AppendNew(Without(history, items), items)
  }

  /** A plan goes on listing everything its loop ever named, each item once. */
  lemma PlanListsEverything(history: seq<string>, items: seq<string>)
    requires NoRepeats(history)
    ensures NoRepeats(MergeTodo(history, items))
    ensures forall x :: x in MergeTodo(history, items) <==> x in history || x in items
  {
    WithoutKeeps(history, items);
    AppendKeeps(Without(history, items), items);
  }

  lemma {:induction false} WithoutKeeps(items: seq<string>, gone: seq<string>)
    ensures forall x :: x in Without(items, gone) <==> x in items && x !in gone
    ensures NoRepeats(items) ==> NoRepeats(Without(items, gone))
    decreases |items|
  {
    if items != [] {
      WithoutKeeps(items[1..], gone);
      var rest := Without(items[1..], gone);
      assert forall x :: x in items <==> x == items[0] || x in items[1..];
      if NoRepeats(items) {
        assert items[0] !in items[1..];
        assert forall k :: 0 <= k < |rest| ==> rest[k] in rest;
      }
    }
  }

  lemma {:induction false} AppendKeeps(history: seq<string>, items: seq<string>)
    requires NoRepeats(history)
    ensures NoRepeats(AppendNew(history, items))
    ensures forall x :: x in AppendNew(history, items) <==> x in history || x in items
    decreases |items|
  {
    if items != [] {
      AppendKeeps(if items[0] in history then history else history + [items[0]], items[1..]);
      assert forall x :: x in items <==> x == items[0] || x in items[1..];
    }
  }

  /** A log coordinate covers itself and everything below it. */
  predicate Covers(killed: seq<nat>, plan: CallId) {
    plan.At? && killed != [] && killed <= [plan.loopSeq, plan.turnSeq, plan.sequence]
  }

  // ----- the steps -----

  function EnterLoop(s: State, loopSeq: nat): State {
    if s.todoLoopSeq == Some(loopSeq) then s else s.(todoLoopSeq := Some(loopSeq), todoHistory := [], plans := {})
  }

  function Think(s: State, row: Row): Output {
    if row.op.Some? && row.reasoning && row.turnId !in s.streamedReasoning then
      Output(s.(streamedReasoning := s.streamedReasoning + {row.turnId}), [Thought(row.turnId)])
    else Output(s, [])
  }

  /** What is known of the end of a row's stream: by its address first, by its id otherwise. */
  function Concluded(s: State, row: Row): Option<int> {
    var target := Address(row.stream);
    if target.Some? && target.value in s.concludedByTarget then Some(s.concludedByTarget[target.value])
    else if row.id in s.concludedByEntry then Some(s.concludedByEntry[row.id])
    else None
  }

  function CallStatus(s: State, row: Row): ToolStatus {
    var raw, concluded := ToolStatusOf(row), Concluded(s, row);
    if raw == InProgress && concluded.Some? then Outcome(concluded.value) else raw
  }

  function EffectiveStatus(s: State, row: Row): int {
    var raw, concluded := ToolStatusOf(row), Concluded(s, row);
    if raw == InProgress && concluded.Some? then concluded.value else row.statusRx
  }

  function NameCall(s: State, row: Row): State {
    var target := Address(row.stream);
    s.(toolCallByEntry := s.toolCallByEntry[row.id := Coordinate(row)],
       toolCallByTarget := if target.Some? then s.toolCallByTarget[target.value := Coordinate(row)] else s.toolCallByTarget)
  }

  function CallUpdates(s: State, row: Row): seq<Update> {
    var status, effective := CallStatus(s, row), EffectiveStatus(s, row);
    [ToolCall(row.id, Coordinate(row), status, effective)]
      + if row.stream.None? then []
        else [Terminal(row.id, status == InProgress,
                       if status == Completed || status == FailedCall then Some(ExitCode(effective)) else None)]
  }

  function ShowPlan(s: State, row: Row): Output {
    var history := MergeTodo(s.todoHistory, row.items);
    if history == [] then Output(s.(todoHistory := history), [])
    else Output(s.(todoHistory := history, plans := s.plans + {Coordinate(row)}),
                [Plan(row.id, history, set item | item in row.items)])
  }

  function RemovePlans(s: State, row: Row): Output {
    if row.killed.None? then Output(s, [])
    else
      var removed := set c | c in s.plans && Covers(row.killed.value, c);
      var left := s.plans - removed;
      if removed == {} then Output(s, [])
      else Output(s.(plans := left, todoHistory := if left == {} then [] else s.todoHistory), [PlanRemoved(row.id)])
  }

  function Call(s: State, row: Row): Output {
    var status, named, updates := CallStatus(s, row), NameCall(s, row), CallUpdates(s, row);
    var planned :=
      if row.op == Some("todo") && status == Completed then ShowPlan(named, row)
      else if row.op == Some("kill") && status == Completed then RemovePlans(named, row)
      else Output(named, []);
    Output(planned.state, updates + planned.updates)
  }

  function Translate(s: State, row: Row): Output {
    if row.answers then Output(s, [AgentMessage(row.id)])
    else if row.invocation.Some? then
      Output(s, [ToolCall(row.id, row.invocation.value, ToolStatusOf(row), row.statusRx)])
    else if row.message then Output(s, [UserMessage(row.id)])
    else if row.op == Some("error") then
      Output(s, [if row.attempted then ToolCall(row.id, Coordinate(row), FailedCall, row.statusRx) else Notice(row.id)])
    else if row.op.Some? then Call(s, row)
    else Output(s, [Notice(row.id)])
  }

  function LogEntry(s: State, row: Row): Output {
    if row.sessionId != s.sessionId then Output(s, [])
    else
      var thought := Think(EnterLoop(s, row.loopSeq), row);
      var rest := Translate(thought.state, row);
      Output(rest.state, thought.updates + rest.updates)
  }

  /** Reasoning shown while it streams: its turn's rows repeat none of it. */
  function Reasoning(s: State, sessionId: int, turnId: int, content: bool): Output {
    if sessionId != s.sessionId || !content then Output(s, [])
    else Output(s.(streamedReasoning := s.streamedReasoning + {turnId}), [Thought(turnId)])
  }

  function ConcludedCall(s: State, entryId: int, target: Option<string>): Option<CallId> {
    var address := Address(target);
    if entryId in s.toolCallByEntry then Some(s.toolCallByEntry[entryId])
    else if address.Some? && address.value in s.toolCallByTarget then Some(s.toolCallByTarget[address.value])
    else None
  }

  function TerminalConcluded(s: State, entryId: int, target: Option<string>, status: int): Output {
    var address, call := Address(target), ConcludedCall(s, entryId, target);
    Output(s.(concludedByEntry := s.concludedByEntry[entryId := status],
              concludedByTarget := if address.Some? then s.concludedByTarget[address.value := status] else s.concludedByTarget),
           [Terminal(entryId, false, Some(ExitCode(status)))]
             + if call.Some? then [ToolCall(entryId, call.value, Outcome(status), status)] else [])
  }

  // ----- the class -----

  class SessionTranslator {
    const sessionId: int
    var streamedReasoningTurns: set<int>
    var toolCallIdByEntryId: map<int, CallId>
    var toolCallIdByStreamTarget: map<string, CallId>
    var concludedStreamStatusByEntryId: map<int, int>
    var concludedStreamStatusByTarget: map<string, int>
    var planIdByCoordinate: set<CallId>
    var todoLoopSeq: Option<nat>
    var todoHistory: seq<string>

    ghost function Now(): State
      reads this
    {
      State(sessionId, streamedReasoningTurns, toolCallIdByEntryId, toolCallIdByStreamTarget,
            concludedStreamStatusByEntryId, concludedStreamStatusByTarget, planIdByCoordinate, todoLoopSeq, todoHistory)
    }

    constructor (sessionId: int)
      ensures Now() == Fresh(sessionId)
    {
      this.sessionId := sessionId;
      streamedReasoningTurns, planIdByCoordinate := {}, {};
      toolCallIdByEntryId, toolCallIdByStreamTarget := map[], map[];
      concludedStreamStatusByEntryId, concludedStreamStatusByTarget := map[], map[];
      todoLoopSeq, todoHistory := None, [];
    }

    method OnLogEntry(row: Row) returns (updates: seq<Update>)
      modifies this
      ensures Output(Now(), updates) == LogEntry(old(Now()), row)
    {
      if row.sessionId != sessionId {
        return [];
      }
      if todoLoopSeq != Some(row.loopSeq) {
        todoLoopSeq, todoHistory, planIdByCoordinate := Some(row.loopSeq), [], {};
      }
      updates := [];
      if row.op.Some? && row.reasoning && row.turnId !in streamedReasoningTurns {
        streamedReasoningTurns := streamedReasoningTurns + {row.turnId};
        updates := [Thought(row.turnId)];
      }
      ghost var thought := Think(EnterLoop(old(Now()), row.loopSeq), row);
      assert Output(Now(), updates) == thought;
      if row.answers {
        updates := updates + [AgentMessage(row.id)];
      } else if row.invocation.Some? {
        updates := updates + [ToolCall(row.id, row.invocation.value, ToolStatusOf(row), row.statusRx)];
      } else if row.message {
        updates := updates + [UserMessage(row.id)];
      } else if row.op == Some("error") {
        updates := updates + [if row.attempted then ToolCall(row.id, Coordinate(row), FailedCall, row.statusRx) else Notice(row.id)];
      } else if row.op.Some? {
        var more := OnCall(row);
        updates := updates + more;
      } else {
        updates := updates + [Notice(row.id)];
      }
    }

    method OnCall(row: Row) returns (updates: seq<Update>)
      modifies this
      ensures Output(Now(), updates) == Call(old(Now()), row)
    {
      var coordinate := Coordinate(row);
      var target := Address(row.stream);
      toolCallIdByEntryId := toolCallIdByEntryId[row.id := coordinate];
      if target.Some? {
        toolCallIdByStreamTarget := toolCallIdByStreamTarget[target.value := coordinate];
      }
      var concluded: Option<int> :=
        if target.Some? && target.value in concludedStreamStatusByTarget then Some(concludedStreamStatusByTarget[target.value])
        else if row.id in concludedStreamStatusByEntryId then Some(concludedStreamStatusByEntryId[row.id])
        else None;
      var rawStatus := ToolStatusOf(row);
      var status := if rawStatus == InProgress && concluded.Some? then Outcome(concluded.value) else rawStatus;
      var effective := if rawStatus == InProgress && concluded.Some? then concluded.value else row.statusRx;
      updates := [ToolCall(row.id, coordinate, status, effective)];
      if row.stream.Some? {
        updates := updates + [Terminal(row.id, status == InProgress,
          if status == Completed || status == FailedCall then Some(ExitCode(effective)) else None)];
      }
      if row.op == Some("todo") && status == Completed {
        var more := OnTodo(row);
        updates := updates + more;
      } else if row.op == Some("kill") && status == Completed {
        var more := OnKill(row);
        updates := updates + more;
      }
    }

    method OnTodo(row: Row) returns (updates: seq<Update>)
      modifies this
      ensures Output(Now(), updates) == ShowPlan(old(Now()), row)
    {
      var nextHistory := Without(todoHistory, row.items);
      for i := 0 to |row.items|
        invariant AppendNew(nextHistory, row.items[i..]) == MergeTodo(todoHistory, row.items)
        invariant Now() == old(Now())
      {
        assert row.items[i..][1..] == row.items[i + 1..];
        if row.items[i] !in nextHistory {
          nextHistory := nextHistory + [row.items[i]];
        }
      }
      todoHistory := nextHistory;
      updates := [];
      if nextHistory != [] {
        planIdByCoordinate := planIdByCoordinate + {Coordinate(row)};
        updates := [Plan(row.id, nextHistory, set item | item in row.items)];
      }
    }

    method OnKill(row: Row) returns (updates: seq<Update>)
      modifies this
      ensures Output(Now(), updates) == RemovePlans(old(Now()), row)
    {
      if row.killed.None? {
        return [];
      }
      var todo, removed := planIdByCoordinate, {};
      while todo != {}
        invariant todo <= old(planIdByCoordinate)
        invariant removed == set c | c in old(planIdByCoordinate) - todo && Covers(row.killed.value, c)
        invariant planIdByCoordinate == old(planIdByCoordinate) - removed
        invariant Now() == old(Now()).(plans := planIdByCoordinate)
        decreases todo
      {
        var c :| c in todo;
        todo := todo - {c};
        if Covers(row.killed.value, c) {
          removed := removed + {c};
          planIdByCoordinate := planIdByCoordinate - {c};
        }
      }
      if removed != {} && planIdByCoordinate == {} {
        todoHistory := [];
      }
      updates := if removed != {} then [PlanRemoved(row.id)] else [];
    }

    method OnReasoning(eventSessionId: int, turnId: int, content: bool) returns (updates: seq<Update>)
      modifies this
      ensures Output(Now(), updates) == Reasoning(old(Now()), eventSessionId, turnId, content)
    {
      if eventSessionId != sessionId {
        return [];
      }
      if !content {
        return [];
      }
      streamedReasoningTurns := streamedReasoningTurns + {turnId};
      updates := [Thought(turnId)];
    }

    method OnTerminalConcluded(entryId: int, target: Option<string>, status: int) returns (updates: seq<Update>)
      modifies this
      ensures Output(Now(), updates) == TerminalConcluded(old(Now()), entryId, target, status)
    {
      var address := Address(target);
      concludedStreamStatusByEntryId := concludedStreamStatusByEntryId[entryId := status];
      if address.Some? {
        concludedStreamStatusByTarget := concludedStreamStatusByTarget[address.value := status];
      }
      updates := [Terminal(entryId, false, Some(ExitCode(status)))];
      if entryId in toolCallIdByEntryId {
        updates := updates + [ToolCall(entryId, toolCallIdByEntryId[entryId], Outcome(status), status)];
      } else if address.Some? && address.value in toolCallIdByStreamTarget {
        updates := updates + [ToolCall(entryId, toolCallIdByStreamTarget[address.value], Outcome(status), status)];
      }
    }
  }
}
