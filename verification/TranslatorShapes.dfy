/** Which kinds of updates a row and a conclusion show, each exactly when (plurnk-acp/src/SessionTranslator.ts). */
module TranslatorShapes {

  import opened Optional
  import opened Translator
  import opened TranslatorLoops
  import opened TranslatorPlans

  /** A row is pending while proposed; otherwise it failed by its state or its status, streams, or is done. */
  lemma StatusExactly(row: Row)
    ensures var status := ToolStatusOf(row);
      && (status == Pending <==> row.state == Proposed)
      && (status == FailedCall <==> row.state == Failed || row.state == Cancelled || (row.state != Proposed && row.statusRx >= 400))
      && (status == InProgress <==> row.state == OtherState && row.statusRx < 400 && row.stream.Some?)
      && (status == Completed <==> row.state == OtherState && row.statusRx < 400 && row.stream.None?)
  {
  }

  /** The log coordinate of a loop, a turn or a row covers exactly the plans of that loop, turn or row. */
  lemma CoversExactly(killed: seq<nat>, plan: CallId)
    ensures Covers(killed, plan) <==>
      plan.At? && (killed == [plan.loopSeq] || killed == [plan.loopSeq, plan.turnSeq] || killed == [plan.loopSeq, plan.turnSeq, plan.sequence])
  {
    if plan.At? {
      var all := [plan.loopSeq, plan.turnSeq, plan.sequence];
      assert killed <= all ==> killed == all[..|killed|];
    }
  }

  /** A row of another loop than the last begins a blank plan. */
  lemma PlanOfItsLoop(s: State, loopSeq: nat)
    ensures BoardIn(EnterLoop(s, loopSeq)) == if s.todoLoopSeq == Some(loopSeq) then BoardIn(s) else BLANK
  {
  }

  /** An empty address names no stream: a call with it is known by its id alone, and so is a conclusion with it. */
  lemma EmptyAddressNamesNothing(s: State, row: Row, entryId: int, status: int)
    requires row.stream == Some("")
    ensures ConcludedCall(s, entryId, Some("")) == if entryId in s.toolCallByEntry then Some(s.toolCallByEntry[entryId]) else None
    ensures TerminalConcluded(s, entryId, Some(""), status).state.concludedByTarget == s.concludedByTarget
    ensures Concluded(s, row) == if row.id in s.concludedByEntry then Some(s.concludedByEntry[row.id]) else None
    ensures LogEntry(s, row).state.toolCallByTarget == s.toolCallByTarget
  {
    EntryTouches(s, row);
  }

  predicate Inside(s: State, row: Row) {
    row.sessionId == s.sessionId
  }

  /** The row completes a call named elsewhere. */
  predicate Completes(row: Row) {
    !row.answers && row.invocation.Some?
  }

  predicate SpeaksAsUser(row: Row) {
    !row.answers && row.invocation.None? && row.message
  }

  /** The row is none of the special shapes. */
  predicate Plain(row: Row) {
    !row.answers && row.invocation.None? && !row.message
  }

  predicate ReportsOwn(s: State, row: Row, u: Update)
    requires u.ToolCall?
  {
    if row.op == Some("error") then row.attempted && u.status == FailedCall && u.effective == row.statusRx
    else if ToolStatusOf(row) == InProgress && Concluded(s, row).Some? then
      u.status == Outcome(Concluded(s, row).value) && u.effective == Concluded(s, row).value
    else u.status == ToolStatusOf(row) && u.effective == row.statusRx
  }

  /** The calls the row reports: the one it completes, a failed attempt under its own name, or its own call. */
  predicate Reports(s: State, row: Row, u: Update) {
    && u.ToolCall? && u.entryId == row.id
    && (if Completes(row) then u.callId == row.invocation.value && u.status == ToolStatusOf(row) && u.effective == row.statusRx
        else Plain(row) && row.op.Some? && u.callId == Coordinate(row) && ReportsOwn(s, row, u))
  }

  /** The terminal of a call with a stream: it can be cancelled exactly while the call is in progress, and tells how it ended
      exactly when it has. */
  predicate ShowsTerminal(s: State, row: Row, u: Update) {
    && u.Terminal? && u.entryId == row.id && StartsCall(row) && row.stream.Some?
    && (u.cancellable <==> ToolStatusOf(row) == InProgress && Concluded(s, row).None?)
    && (u.exitCode.Some? <==> ToolStatusOf(row) != Pending && !u.cancellable)
    && (u.exitCode.Some? ==>
          var status := if ToolStatusOf(row) == InProgress then Concluded(s, row).value else row.statusRx;
          u.exitCode.value == if status == 200 then 0 else status)
  }

  /** What a row outside the plan shows. */
  predicate Shows(s: State, row: Row, u: Update) {
    match u
    case Thought(turnId) => row.op.Some? && row.reasoning && turnId == row.turnId && turnId !in s.streamedReasoning
    case AgentMessage(id) => id == row.id && row.answers
    case UserMessage(id) => id == row.id && SpeaksAsUser(row)
    case Notice(id) => id == row.id && Plain(row) && (row.op.None? || (row.op == Some("error") && !row.attempted))
    case ToolCall(_, _, _, _) => Reports(s, row, u)
    case Terminal(_, _, _) => ShowsTerminal(s, row, u)
    case _ => false
  }

  predicate OfPlan(u: Update) {
    u.Plan? || u.PlanRemoved?
  }

  lemma CallShows(s: State, row: Row, u: Update)
    requires StartsCall(row) && !OfPlan(u)
    ensures u in Call(s, row).updates <==> Reports(s, row, u) || ShowsTerminal(s, row, u)
  {
    CallUpdatesShow(s, row, u);
    assert forall x :: x in Call(s, row).updates && x !in CallUpdates(s, row) ==> OfPlan(x);
    assert forall x :: x in CallUpdates(s, row) ==> x in Call(s, row).updates;
  }

  lemma CallUpdatesShow(s: State, row: Row, u: Update)
    requires StartsCall(row)
    ensures u in CallUpdates(s, row) <==> Reports(s, row, u) || ShowsTerminal(s, row, u)
  {
  }

  lemma TranslationShowsExactly(s: State, row: Row, u: Update)
    requires !OfPlan(u) && !u.Thought?
    ensures u in Translate(s, row).updates <==> Shows(s, row, u)
  {
    if StartsCall(row) {
      CallShows(s, row, u);
    }
  }

  /** A row of another session shows nothing; of its own rows, each shows exactly this besides its plan. */
  lemma RowShowsExactly(s: State, row: Row, u: Update)
    requires !OfPlan(u)
    ensures u in LogEntry(s, row).updates <==> Inside(s, row) && Shows(s, row, u)
  {
    if Inside(s, row) {
      EntryIs(s, row);
      var thought := Think(EnterLoop(s, row.loopSeq), row);
      KnowsAlike(s, thought.state, row);
      if u.Thought? {
        TranslationShows(thought.state, row);
      } else {
        TranslationShowsExactly(thought.state, row, u);
      }
    }
  }

  /** Only a completed todo or kill shows a plan: a todo the merged list of its loop, unless that is empty, with what it names
      itself still pending; a kill that its plans are gone, if it covers any. */
  lemma PlanShownExactly(s: State, row: Row, u: Update)
    requires OfPlan(u) && Inside(s, row)
    ensures var board, status := BoardIn(EnterLoop(s, row.loopSeq)), CallStatus(s, row);
      u in LogEntry(s, row).updates <==>
        StartsCall(row) && status == Completed &&
        if u.Plan? then
          && row.op == Some("todo") && u.entryId == row.id && u.items == MergeTodo(board.history, row.items) && u.items != []
          && u.pending == set item | item in row.items
        else row.op == Some("kill") && u.entryId == row.id && exists c :: c in board.plans && Kills(row, c)
  {
    EntryIs(s, row);
    var entered := EnterLoop(s, row.loopSeq);
    var thought := Think(entered, row);
    KnowsAlike(s, thought.state, row);
    assert BoardIn(thought.state) == BoardIn(entered);
    assert u !in thought.updates;
    if StartsCall(row) {
      CallPlansShow(thought.state, row, u);
      KillsExactly(BoardIn(entered), row);
    }
  }

  lemma CallPlansShow(s: State, row: Row, u: Update)
    requires OfPlan(u) && StartsCall(row)
    ensures u in Call(s, row).updates <==>
      CallStatus(s, row) == Completed && (row.op == Some("todo") || row.op == Some("kill")) && u in BoardShows(BoardIn(s), row)
  {
    var named := NameCall(s, row);
    assert BoardIn(named) == BoardIn(s);
    assert u !in CallUpdates(s, row);
    if row.op == Some("todo") {
      TodoIs(named, row);
    } else if row.op == Some("kill") {
      KillIs(named, row);
    }
  }

  /** Streamed reasoning is shown, and its turn remembered, exactly when it is the session's and says something. */
  lemma ReasoningExactly(s: State, sessionId: int, turnId: int, content: bool)
    ensures var r := Reasoning(s, sessionId, turnId, content);
      if sessionId == s.sessionId && content then
        r.updates == [Thought(turnId)] && forall t :: t in r.state.streamedReasoning <==> t in s.streamedReasoning || t == turnId
      else r == Output(s, [])
  {
  }

  /** A conclusion shows that its terminal cannot be cancelled any more and how it ended, and the call it names, if it names
      one, with that end; nothing else. */
  lemma ConclusionShowsExactly(s: State, entryId: int, target: Option<string>, status: int, u: Update)
    ensures u in TerminalConcluded(s, entryId, target, status).updates <==>
      || u == Terminal(entryId, false, Some(if status == 200 then 0 else status))
      || exists call :: ConcludedCall(s, entryId, target) == Some(call)
           && u == ToolCall(entryId, call, if status < 400 then Completed else FailedCall, status)
  {
  }
}
