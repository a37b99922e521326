/** What a translator's state can change about the updates of a replayed row, and what a row leaves behind
    (plurnk-acp/src/SessionTranslator.ts, plurnk-acp/src/replay.ts). */
module TranslatorLoops {

  import opened Optional
  import opened Translator
  import opened TranslatorPlans

  /** A row as a replay delivers it: `ended` when the end of its stream is reported right after it. */
  datatype Item = Item(row: Row, ended: bool)

  function Deliver(s: State, item: Item): Output {
    var entry := LogEntry(s, item.row);
    if item.ended && item.row.stream.Some? then
      var end := TerminalConcluded(entry.state, item.row.id, item.row.stream, item.row.statusRx);
      Output(end.state, entry.updates + end.updates)
    else entry
  }

  // ----- what two states have in common for a row -----

  predicate Starts(sessionId: int, row: Row) {
    row.sessionId == sessionId && StartsCall(row)
  }

  predicate Thinks(sessionId: int, row: Row) {
    row.sessionId == sessionId && row.op.Some? && row.reasoning
  }

  /** The row's turn was shown thinking in both or in neither. */
  predicate SameThought(s: State, t: State, row: Row) {
    Thinks(s.sessionId, row) ==> (row.turnId in s.streamedReasoning <==> row.turnId in t.streamedReasoning)
  }

  /** Both know the same end of the row's stream, where it matters. */
  predicate SameStatus(s: State, t: State, row: Row) {
    Starts(s.sessionId, row) && ToolStatusOf(row) == InProgress ==> Concluded(s, row) == Concluded(t, row)
  }

  /** The end reported after the row reaches the same call, where the row is not a call itself. */
  predicate SameCall(s: State, t: State, item: Item) {
    !Starts(s.sessionId, item.row) && item.ended && item.row.stream.Some? ==>
      ConcludedCall(s, item.row.id, item.row.stream) == ConcludedCall(t, item.row.id, item.row.stream)
  }

  predicate Alike(s: State, t: State, item: Item) {
    SameThought(s, t, item.row) && SameStatus(s, t, item.row) && SameCall(s, t, item)
  }

  predicate SameRecord(s: State, t: State) {
    s.todoLoopSeq == t.todoLoopSeq && s.todoHistory == t.todoHistory && s.plans == t.plans
  }

  /** What the end of the row's stream would change about its status is not known. */
  predicate Unconcluded(s: State, row: Row) {
    !(Starts(s.sessionId, row) && ToolStatusOf(row) == InProgress && Concluded(s, row).Some?)
  }

  /** The plan the loop has in the state: a blank one when the state is in another loop. */
  function BoardOf(s: State, loopSeq: nat): Board {
    BoardIn(EnterLoop(s, loopSeq))
  }

  predicate PlansIn(sessionId: int, row: Row) {
    row.sessionId == sessionId && Plans(row)
  }

  // ----- a row delivered to both -----

  lemma EntryIs(s: State, row: Row)
    requires row.sessionId == s.sessionId
    ensures var thought := Think(EnterLoop(s, row.loopSeq), row);
      LogEntry(s, row) == Output(Translate(thought.state, row).state, thought.updates + Translate(thought.state, row).updates)
  {
  }

  lemma KnowsAlike(s: State, t: State, row: Row)
    requires t == Think(EnterLoop(s, row.loopSeq), row).state
    ensures Concluded(s, row) == Concluded(t, row)
  {
  }

  lemma ThinksAlike(s: State, t: State, row: Row)
    requires s.sessionId == t.sessionId == row.sessionId && SameThought(s, t, row)
    ensures Think(EnterLoop(s, row.loopSeq), row).updates == Think(EnterLoop(t, row.loopSeq), row).updates
  {
  }

  /** What a row shows and leaves of its loop's plan. */
  lemma EntryPlans(s: State, row: Row)
    requires row.sessionId == s.sessionId && StartsCall(row) && Unconcluded(s, row)
    ensures var thought := Think(EnterLoop(s, row.loopSeq), row);
      && LogEntry(s, row).updates
           == thought.updates + (CallUpdates(thought.state, row) + if Plans(row) then BoardShows(BoardOf(s, row.loopSeq), row) else [])
      && BoardOf(LogEntry(s, row).state, row.loopSeq)
           == if Plans(row) then BoardNext(BoardOf(s, row.loopSeq), row) else BoardOf(s, row.loopSeq)
  {
    var thought := Think(EnterLoop(s, row.loopSeq), row);
    EntryIs(s, row);
    KnowsAlike(s, thought.state, row);
    assert CallStatus(thought.state, row) == ToolStatusOf(row);
    assert BoardIn(thought.state) == BoardOf(s, row.loopSeq);
    CallPlans(thought.state, row);
    EntryTouches(s, row);
  }

  /** Other rows leave the plan alone. */
  lemma OtherEntry(s: State, row: Row)
    requires row.sessionId != s.sessionId || !StartsCall(row)
    ensures BoardOf(LogEntry(s, row).state, row.loopSeq) == BoardOf(s, row.loopSeq)
  {
    if row.sessionId == s.sessionId {
      EntryIs(s, row);
      EntryTouches(s, row);
    }
  }

  lemma EntriesAlike(s: State, t: State, row: Row)
    requires s.sessionId == t.sessionId && SameThought(s, t, row) && Unconcluded(s, row) && Unconcluded(t, row)
    requires PlansIn(s.sessionId, row) ==> BoardShows(BoardOf(s, row.loopSeq), row) == BoardShows(BoardOf(t, row.loopSeq), row)
    ensures LogEntry(s, row).updates == LogEntry(t, row).updates
  {
    if row.sessionId == s.sessionId {
      ThinksAlike(s, t, row);
      var a, b := Think(EnterLoop(s, row.loopSeq), row), Think(EnterLoop(t, row.loopSeq), row);
      if StartsCall(row) {
        EntryPlans(s, row);
        EntryPlans(t, row);
        KnowsAlike(s, a.state, row);
        KnowsAlike(t, b.state, row);
        assert CallUpdates(a.state, row) == CallUpdates(b.state, row);
      } else {
        EntryIs(s, row);
        EntryIs(t, row);
        assert Translate(a.state, row).updates == Translate(b.state, row).updates;
      }
    }
  }

  /** A row that meets nothing else in one state than in the other, and plans that show the same, shows the same in both. */
  lemma DeliversAlike(s: State, t: State, item: Item)
    requires s.sessionId == t.sessionId && Alike(s, t, item) && Unconcluded(s, item.row) && Unconcluded(t, item.row)
    requires PlansIn(s.sessionId, item.row) ==>
      BoardShows(BoardOf(s, item.row.loopSeq), item.row) == BoardShows(BoardOf(t, item.row.loopSeq), item.row)
    ensures Deliver(s, item).updates == Deliver(t, item).updates
  {
    var row := item.row;
    EntriesAlike(s, t, row);
    if item.ended && row.stream.Some? {
      EntryTouches(s, row);
      EntryTouches(t, row);
      if Starts(s.sessionId, row) {
        assert ConcludedCall(LogEntry(s, row).state, row.id, row.stream) == Some(Coordinate(row));
        assert ConcludedCall(LogEntry(t, row).state, row.id, row.stream) == Some(Coordinate(row));
      }
      EndsAlike(LogEntry(s, row).state, LogEntry(t, row).state, row);
    }
  }

  lemma EndsAlike(s: State, t: State, row: Row)
    requires ConcludedCall(s, row.id, row.stream) == ConcludedCall(t, row.id, row.stream)
    ensures TerminalConcluded(s, row.id, row.stream, row.statusRx).updates == TerminalConcluded(t, row.id, row.stream, row.statusRx).updates
  {
  }

  /** What a delivery leaves of its loop's plan. */
  lemma DeliveryPlans(s: State, item: Item)
    requires Unconcluded(s, item.row)
    ensures BoardOf(Deliver(s, item).state, item.row.loopSeq)
         == if PlansIn(s.sessionId, item.row) then BoardNext(BoardOf(s, item.row.loopSeq), item.row) else BoardOf(s, item.row.loopSeq)
  {
    var entry := LogEntry(s, item.row).state;
    if Starts(s.sessionId, item.row) {
      EntryPlans(s, item.row);
    } else {
      OtherEntry(s, item.row);
    }
    assert BoardOf(Deliver(s, item).state, item.row.loopSeq) == BoardOf(entry, item.row.loopSeq);
  }

  lemma EntryPlanned(s: State, row: Row, u: Update)
    requires Unconcluded(s, row) && (u.Plan? || u.PlanRemoved?)
    ensures u in LogEntry(s, row).updates <==> PlansIn(s.sessionId, row) && u in BoardShows(BoardOf(s, row.loopSeq), row)
  {
    if row.sessionId == s.sessionId {
      var thought := Think(EnterLoop(s, row.loopSeq), row);
      assert u !in thought.updates;
      if StartsCall(row) {
        EntryPlans(s, row);
        assert u !in CallUpdates(thought.state, row);
      } else {
        EntryIs(s, row);
        assert u !in Translate(thought.state, row).updates;
      }
    }
  }

  /** Plans are shown by a delivery exactly as its loop's plan has it. */
  lemma DeliveryPlanned(s: State, item: Item, u: Update)
    requires Unconcluded(s, item.row) && (u.Plan? || u.PlanRemoved?)
    ensures u in Deliver(s, item).updates
        <==> PlansIn(s.sessionId, item.row) && u in BoardShows(BoardOf(s, item.row.loopSeq), item.row)
  {
    EntryPlanned(s, item.row, u);
    var end := TerminalConcluded(LogEntry(s, item.row).state, item.row.id, item.row.stream, item.row.statusRx);
    assert u !in end.updates;
  }

  lemma CallPlansOwn(s: State, row: Row)
    ensures forall u :: u in Call(s, row).updates && (u.Plan? || u.PlanRemoved?) ==> u.entryId == row.id
  {
  }

  lemma EntryPlansOwn(s: State, row: Row)
    ensures forall u :: u in LogEntry(s, row).updates && (u.Plan? || u.PlanRemoved?) ==> u.entryId == row.id
  {
    if row.sessionId == s.sessionId {
      EntryIs(s, row);
      CallPlansOwn(Think(EnterLoop(s, row.loopSeq), row).state, row);
    }
  }

  /** Whatever is known, the plans a delivery shows are for its row. */
  lemma DeliveryPlansOwn(s: State, item: Item)
    ensures forall u :: u in Deliver(s, item).updates && (u.Plan? || u.PlanRemoved?) ==> u.entryId == item.row.id
  {
    EntryPlansOwn(s, item.row);
    var entry := LogEntry(s, item.row);
    assert forall u :: u in Deliver(s, item).updates && u !in entry.updates ==> u.Terminal? || u.ToolCall?;
  }

  // ----- what a row leaves behind -----

  lemma CallKeeps(s: State, row: Row)
    ensures var r, named := Call(s, row).state, NameCall(s, row);
      r == named.(todoHistory := r.todoHistory, plans := r.plans)
  {
  }

  lemma ThoughtTouches(s: State, row: Row)
    ensures var r := Think(s, row).state;
      r == s.(streamedReasoning := s.streamedReasoning + (if row.op.Some? && row.reasoning then {row.turnId} else {}))
  {
    if row.turnId in s.streamedReasoning {
      assert s.streamedReasoning == s.streamedReasoning + {row.turnId};
    }
  }

  lemma TranslationTouches(s: State, row: Row)
    ensures var r, named := Translate(s, row).state, if StartsCall(row) then NameCall(s, row) else s;
      r == named.(todoHistory := r.todoHistory, plans := r.plans)
  {
    CallKeeps(s, row);
  }

  /** A row of the session that starts a call names it; no other row changes the tables. */
  lemma EntryTouches(s: State, row: Row)
    ensures var r := LogEntry(s, row).state;
      var named := if Starts(s.sessionId, row) then NameCall(s, row) else s;
      && r.sessionId == s.sessionId && r.concludedByEntry == s.concludedByEntry && r.concludedByTarget == s.concludedByTarget
      && r.toolCallByEntry == named.toolCallByEntry && r.toolCallByTarget == named.toolCallByTarget
      && r.streamedReasoning == s.streamedReasoning + (if Thinks(s.sessionId, row) then {row.turnId} else {})
      && (row.sessionId != s.sessionId ==> r == s)
      && (row.sessionId == s.sessionId ==> r.todoLoopSeq == Some(row.loopSeq))
  {
    if row.sessionId == s.sessionId {
      ThoughtTouches(EnterLoop(s, row.loopSeq), row);
      TranslationTouches(Think(EnterLoop(s, row.loopSeq), row).state, row);
    }
  }

  lemma DeliveryTouches(s: State, item: Item)
    ensures var r, row := Deliver(s, item).state, item.row;
      && r.sessionId == s.sessionId
      && r.streamedReasoning == s.streamedReasoning + (if Thinks(s.sessionId, row) then {row.turnId} else {})
      && (row.sessionId != s.sessionId ==> SameRecord(r, s))
      && (row.sessionId == s.sessionId ==> r.todoLoopSeq == Some(row.loopSeq))
  {
    EntryTouches(s, item.row);
  }

  predicate SameAt<K, V(==)>(a: map<K, V>, b: map<K, V>, k: K) {
    (k in a <==> k in b) && (k in a ==> a[k] == b[k])
  }

  /** What is kept under the names of a row is the same. */
  predicate SameTables(s: State, t: State, id: int, target: Option<string>) {
    && SameAt(s.toolCallByEntry, t.toolCallByEntry, id) && SameAt(s.concludedByEntry, t.concludedByEntry, id)
    && (target.Some? ==> SameAt(s.toolCallByTarget, t.toolCallByTarget, target.value)
                         && SameAt(s.concludedByTarget, t.concludedByTarget, target.value))
  }

  /** Two rows that are not confused. */
  predicate Unlike(a: Row, b: Row) {
    a.id != b.id && (Address(a.stream).Some? ==> Address(a.stream) != Address(b.stream))
  }

  /** A delivery changes nothing a row unlike it could meet, but its turn. */
  lemma DeliveryPasses(s: State, item: Item, other: Row)
    requires Unlike(item.row, other)
    ensures Concluded(Deliver(s, item).state, other) == Concluded(s, other)
    ensures ConcludedCall(Deliver(s, item).state, other.id, other.stream) == ConcludedCall(s, other.id, other.stream)
  {
    EntryTouches(s, item.row);
    EntryPasses(s, LogEntry(s, item.row).state, item.row, other.id, Address(other.stream));
    EndPasses(LogEntry(s, item.row).state, item.row, other.id, Address(other.stream));
    TablesDecide(s, Deliver(s, item).state, other);
  }

  lemma EntryPasses(s: State, r: State, row: Row, id: int, target: Option<string>)
    requires row.id != id && (Address(row.stream).Some? ==> Address(row.stream) != target)
    requires var named := if Starts(s.sessionId, row) then NameCall(s, row) else s;
      && r.concludedByEntry == s.concludedByEntry && r.concludedByTarget == s.concludedByTarget
      && r.toolCallByEntry == named.toolCallByEntry && r.toolCallByTarget == named.toolCallByTarget
    ensures SameTables(s, r, id, target)
  {
  }

  lemma EndPasses(s: State, row: Row, id: int, target: Option<string>)
    requires row.id != id && (Address(row.stream).Some? ==> Address(row.stream) != target)
    ensures SameTables(s, TerminalConcluded(s, row.id, row.stream, row.statusRx).state, id, target)
  {
  }

  lemma TablesDecide(s: State, t: State, row: Row)
    requires SameTables(s, t, row.id, Address(row.stream))
    ensures Concluded(t, row) == Concluded(s, row)
    ensures ConcludedCall(t, row.id, row.stream) == ConcludedCall(s, row.id, row.stream)
  {
  }

  // ----- what is seen of it -----

  function CallsOf(updates: seq<Update>, id: int): nat {
    if updates == [] then 0
    else CallsOf(updates[..|updates| - 1], id) + if updates[|updates| - 1].ToolCall? && updates[|updates| - 1].entryId == id then 1 else 0
  }

  lemma {:induction false} CallsOfJoin(a: seq<Update>, b: seq<Update>, id: int)
    ensures CallsOf(a + b, id) == CallsOf(a, id) + CallsOf(b, id)
    decreases |b|
  {
    if b == [] {
      assert a + b == a;
    } else {
      CallsOfJoin(a, b[..|b| - 1], id);
      assert (a + b)[..|a + b| - 1] == a + b[..|b| - 1];
    }
  }

  lemma {:induction false} NoCalls(updates: seq<Update>, id: int)
    requires forall u :: u in updates && u.ToolCall? ==> u.entryId != id
    ensures CallsOf(updates, id) == 0
    decreases |updates|
  {
    if updates != [] {
      NoCalls(updates[..|updates| - 1], id);
    }
  }

  lemma PlansAndNotices(s: State, row: Row)
    ensures forall u :: u in Call(s, row).updates && u.ToolCall? ==>
              u == ToolCall(row.id, Coordinate(row), CallStatus(s, row), EffectiveStatus(s, row))
    ensures forall u :: u in Call(s, row).updates ==> !u.Thought?
    ensures ToolCall(row.id, Coordinate(row), CallStatus(s, row), EffectiveStatus(s, row)) in Call(s, row).updates
  {
    var updates := CallUpdates(s, row);
    assert updates[0] in Call(s, row).updates;
  }

  lemma TranslationShows(s: State, row: Row)
    ensures forall u :: u in Translate(s, row).updates ==> !u.Thought? && (u.ToolCall? ==> u.entryId == row.id)
    ensures StartsCall(row) ==>
      && (forall u :: u in Translate(s, row).updates && u.ToolCall? ==> u.callId == Coordinate(row) && u.status == CallStatus(s, row))
      && ToolCall(row.id, Coordinate(row), CallStatus(s, row), EffectiveStatus(s, row)) in Translate(s, row).updates
  {
    PlansAndNotices(s, row);
  }

  /** The calls a row reports carry its id; its turn's reasoning is shown when it was not before. */
  lemma EntryShows(s: State, row: Row)
    ensures forall u :: u in LogEntry(s, row).updates && u.ToolCall? ==> u.entryId == row.id
    ensures forall turnId :: Thought(turnId) in LogEntry(s, row).updates <==>
              Thinks(s.sessionId, row) && row.turnId == turnId && turnId !in s.streamedReasoning
    ensures Starts(s.sessionId, row) ==>
      && (forall u :: u in LogEntry(s, row).updates && u.ToolCall? ==> u.callId == Coordinate(row) && u.status == CallStatus(s, row))
      && exists u :: u in LogEntry(s, row).updates && u.ToolCall?
  {
    if row.sessionId == s.sessionId {
      var thought := Think(EnterLoop(s, row.loopSeq), row);
      KnowsAlike(s, thought.state, row);
      TranslationShows(thought.state, row);
      EntryIs(s, row);
      assert EnterLoop(s, row.loopSeq).streamedReasoning == s.streamedReasoning;
      assert forall u :: u in LogEntry(s, row).updates <==> u in thought.updates || u in Translate(thought.state, row).updates;
    }
  }

  lemma DeliveryShows(s: State, item: Item)
    ensures forall u :: u in Deliver(s, item).updates && u.ToolCall? ==> u.entryId == item.row.id
    ensures forall turnId :: Thought(turnId) in Deliver(s, item).updates <==>
              Thinks(s.sessionId, item.row) && item.row.turnId == turnId && turnId !in s.streamedReasoning
    ensures Starts(s.sessionId, item.row) && ToolStatusOf(item.row) == InProgress ==>
      ((exists u :: u in Deliver(s, item).updates && u.ToolCall? && u.status == InProgress) <==> Concluded(s, item.row).None?)
  {
    EntryShows(s, item.row);
    var entry := LogEntry(s, item.row);
    assert forall u :: u in entry.updates ==> u in Deliver(s, item).updates;
    assert forall u :: u in Deliver(s, item).updates && u !in entry.updates ==>
      u.Terminal? || (u.ToolCall? && u.entryId == item.row.id && u.status == Outcome(item.row.statusRx));
  }

  /** A row that is no call reports one call more when the end of its stream reaches one. */
  lemma CallReached(s: State, t: State, item: Item)
    requires s.sessionId == t.sessionId && !Starts(s.sessionId, item.row) && item.ended && item.row.stream.Some?
    requires ConcludedCall(s, item.row.id, item.row.stream).Some? && ConcludedCall(t, item.row.id, item.row.stream).None?
    ensures CallsOf(Deliver(s, item).updates, item.row.id) == CallsOf(Deliver(t, item).updates, item.row.id) + 1
  {
    var row := item.row;
    EntryTouches(s, row);
    EntryTouches(t, row);
    var a, b := LogEntry(s, row), LogEntry(t, row);
    SameCalls(s, t, row);
    var x := TerminalConcluded(a.state, row.id, row.stream, row.statusRx).updates;
    var y := TerminalConcluded(b.state, row.id, row.stream, row.statusRx).updates;
    CallsOfJoin(a.updates, x, row.id);
    CallsOfJoin(b.updates, y, row.id);
    assert x[..1] == y && |y| == 1 && y[..0] == [];
    assert CallsOf(y, row.id) == 0 && CallsOf(x, row.id) == 1;
  }

  lemma SameCalls(s: State, t: State, row: Row)
    requires s.sessionId == t.sessionId && !Starts(s.sessionId, row)
    ensures CallsOf(LogEntry(s, row).updates, row.id) == CallsOf(LogEntry(t, row).updates, row.id)
  {
    if row.sessionId == s.sessionId {
      var a, b := Think(EnterLoop(s, row.loopSeq), row), Think(EnterLoop(t, row.loopSeq), row);
      assert Translate(a.state, row).updates == Translate(b.state, row).updates;
      CallsOfJoin(a.updates, Translate(a.state, row).updates, row.id);
      CallsOfJoin(b.updates, Translate(b.state, row).updates, row.id);
      NoCalls(a.updates, row.id);
      NoCalls(b.updates, row.id);
    }
  }
}
