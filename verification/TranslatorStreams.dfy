/** A streaming call ends with one status, whichever order its rows and its conclusion arrive in
    (plurnk-acp/src/SessionTranslator.ts). */
module TranslatorStreams {

  import opened Optional
  import opened Translator
  import opened TranslatorLoops

  datatype Event =
    | Entry(row: Row)
    | End(entryId: int, target: Option<string>, status: int)
    | Thinking(sessionId: int, turnId: int, content: bool)

  function Step(s: State, e: Event): Output {
    match e
    case Entry(row) => LogEntry(s, row)
    case End(entryId, target, status) => TerminalConcluded(s, entryId, target, status)
    case Thinking(sessionId, turnId, content) => Reasoning(s, sessionId, turnId, content)
  }

  function Run(s: State, events: seq<Event>): Output
    decreases |events|
  {
    if events == [] then Output(s, [])
    else
      var before := Run(s, events[..|events| - 1]);
      var last := Step(before.state, events[|events| - 1]);
      Output(last.state, before.updates + last.updates)
  }

  // ----- what is said of one call -----

  predicate About(u: Update, call: CallId) {
    u.ToolCall? && u.callId == call
  }

  /** The status a call is last reported with. */
  function Shown(updates: seq<Update>, call: CallId): Option<ToolStatus> {
    if updates == [] then None
    else
      var last := updates[|updates| - 1];
      if About(last, call) then Some(last.status) else Shown(updates[..|updates| - 1], call)
  }

  lemma {:induction false} ShownLast(a: seq<Update>, b: seq<Update>, call: CallId)
    ensures Shown(a + b, call) == if Shown(b, call).Some? then Shown(b, call) else Shown(a, call)
  {
    if b == [] {
      assert a + b == a;
    } else {
      ShownLast(a, b[..|b| - 1], call);
      assert (a + b)[..|a + b| - 1] == a + b[..|b| - 1];
    }
  }

  lemma {:induction false} ShownOfAll(updates: seq<Update>, call: CallId, status: ToolStatus)
    requires forall u :: u in updates && About(u, call) ==> u.status == status
    ensures Shown(updates, call) == if exists u :: u in updates && About(u, call) then Some(status) else None
  {
    if updates != [] {
      var init, last := updates[..|updates| - 1], updates[|updates| - 1];
      ShownOfAll(init, call, status);
      assert updates == init + [last];
      assert forall u :: u in updates <==> u in init || u == last;
    }
  }

  // ----- what is known, told from the events alone -----

  /** The status of the last conclusion that carried the id. */
  function LastEnd(events: seq<Event>, id: int): Option<int> {
    if events == [] then None
    else
      var last := events[|events| - 1];
      if last.End? && last.entryId == id then Some(last.status) else LastEnd(events[..|events| - 1], id)
  }

  /** The status of the last conclusion of the stream. */
  function LastEndAt(events: seq<Event>, address: string): Option<int> {
    if events == [] then None
    else
      var last := events[|events| - 1];
      if last.End? && Address(last.target) == Some(address) then Some(last.status) else LastEndAt(events[..|events| - 1], address)
  }

  /** The call started by the last row that carried the id. */
  function LastCall(events: seq<Event>, sessionId: int, id: int): Option<CallId> {
    if events == [] then None
    else
      var last := events[|events| - 1];
      if last.Entry? && Starts(sessionId, last.row) && last.row.id == id then Some(Coordinate(last.row))
      else LastCall(events[..|events| - 1], sessionId, id)
  }

  /** The call started by the last row with the stream. */
  function LastCallAt(events: seq<Event>, sessionId: int, address: string): Option<CallId> {
    if events == [] then None
    else
      var last := events[|events| - 1];
      if last.Entry? && Starts(sessionId, last.row) && Address(last.row.stream) == Some(address) then Some(Coordinate(last.row))
      else LastCallAt(events[..|events| - 1], sessionId, address)
  }

  /** The end of a row's stream: the last of its address, or without one the last that carried the row's id. */
  function KnownEnd(events: seq<Event>, row: Row): Option<int> {
    var target := Address(row.stream);
    if target.Some? && LastEndAt(events, target.value).Some? then LastEndAt(events, target.value) else LastEnd(events, row.id)
  }

  /** The call a conclusion names: by its id first, by its stream otherwise. */
  function NamedCall(events: seq<Event>, sessionId: int, id: int, target: Option<string>): Option<CallId> {
    if LastCall(events, sessionId, id).Some? then LastCall(events, sessionId, id)
    else if Address(target).Some? then LastCallAt(events, sessionId, Address(target).value)
    else None
  }

  function StatusAfter(before: seq<Event>, row: Row): ToolStatus {
    if ToolStatusOf(row) == InProgress && KnownEnd(before, row).Some? then Outcome(KnownEnd(before, row).value) else ToolStatusOf(row)
  }

  /** What an event says of a call, given the events before it. */
  function Says(before: seq<Event>, sessionId: int, e: Event, call: CallId): Option<ToolStatus> {
    match e
    case Entry(row) =>
      if row.sessionId != sessionId || row.answers then None
      else if row.invocation.Some? then if row.invocation.value == call then Some(ToolStatusOf(row)) else None
      else if row.message || row.op.None? || Coordinate(row) != call then None
      else if row.op == Some("error") then if row.attempted then Some(FailedCall) else None
      else Some(StatusAfter(before, row))
    case End(entryId, target, status) =>
      if NamedCall(before, sessionId, entryId, target) == Some(call) then Some(Outcome(status)) else None
    case Thinking(_, _, _) => None
  }

  /** The last thing the events say of a call. */
  function Reported(events: seq<Event>, sessionId: int, call: CallId): Option<ToolStatus> {
    if events == [] then None
    else
      var before := events[..|events| - 1];
      var said := Says(before, sessionId, events[|events| - 1], call);
      if said.Some? then said else Reported(before, sessionId, call)
  }

  // ----- the translator knows just that -----

  lemma StepTables(s: State, e: Event)
    ensures var r := Step(s, e).state;
      && r.sessionId == s.sessionId
      && (e.End? ==> r.concludedByEntry == s.concludedByEntry[e.entryId := e.status])
      && (e.End? ==>
            r.concludedByTarget == if Address(e.target).Some? then s.concludedByTarget[Address(e.target).value := e.status] else s.concludedByTarget)
      && (!e.End? ==> r.concludedByEntry == s.concludedByEntry && r.concludedByTarget == s.concludedByTarget)
      && (e.Entry? && Starts(s.sessionId, e.row) ==>
            r.toolCallByEntry == NameCall(s, e.row).toolCallByEntry && r.toolCallByTarget == NameCall(s, e.row).toolCallByTarget)
      && (!(e.Entry? && Starts(s.sessionId, e.row)) ==>
            r.toolCallByEntry == s.toolCallByEntry && r.toolCallByTarget == s.toolCallByTarget)
  {
    if e.Entry? {
      EntryTouches(s, e.row);
    }
  }

  ghost predicate Holds<K, V>(m: map<K, V>, k: K, v: Option<V>) {
    if k in m then v == Some(m[k]) else v == None
  }

  /** The tables hold what the events say last. */
  lemma {:induction false} TablesHold(events: seq<Event>, sessionId: int, id: int, address: string)
    ensures var s := Run(Fresh(sessionId), events).state;
      && s.sessionId == sessionId
      && Holds(s.concludedByEntry, id, LastEnd(events, id)) && Holds(s.concludedByTarget, address, LastEndAt(events, address))
      && Holds(s.toolCallByEntry, id, LastCall(events, sessionId, id))
      && Holds(s.toolCallByTarget, address, LastCallAt(events, sessionId, address))
    decreases |events|
  {
    if events != [] {
      var before, last := events[..|events| - 1], events[|events| - 1];
      TablesHold(before, sessionId, id, address);
      StepTables(Run(Fresh(sessionId), before).state, last);
    }
  }

  lemma KnowsEnds(events: seq<Event>, sessionId: int, row: Row)
    ensures Concluded(Run(Fresh(sessionId), events).state, row) == KnownEnd(events, row)
  {
    var target := Address(row.stream);
    TablesHold(events, sessionId, row.id, if target.Some? then target.value else "");
  }

  lemma KnowsCalls(events: seq<Event>, sessionId: int, id: int, target: Option<string>)
    ensures ConcludedCall(Run(Fresh(sessionId), events).state, id, target) == NamedCall(events, sessionId, id, target)
  {
    TablesHold(events, sessionId, id, if Address(target).Some? then Address(target).value else "");
  }

  /** The updates say this of the call and nothing else. */
  ghost predicate OnlySays(updates: seq<Update>, call: CallId, said: Option<ToolStatus>) {
    Shown(updates, call) == said && forall u :: u in updates && About(u, call) ==> said == Some(u.status)
  }

  lemma EntrySays(s: State, row: Row, call: CallId, said: Option<ToolStatus>)
    requires row.sessionId == s.sessionId
    requires OnlySays(Translate(Think(EnterLoop(s, row.loopSeq), row).state, row).updates, call, said)
    ensures OnlySays(LogEntry(s, row).updates, call, said)
  {
    var thought := Think(EnterLoop(s, row.loopSeq), row);
    var rest := Translate(thought.state, row).updates;
    EntryIs(s, row);
    ThoughtSays(thought.updates, rest, call);
    assert LogEntry(s, row).updates == thought.updates + rest;
  }

  lemma ThoughtSays(thought: seq<Update>, rest: seq<Update>, call: CallId)
    requires forall u :: u in thought ==> u.Thought?
    ensures Shown(thought + rest, call) == Shown(rest, call)
    ensures forall u :: u in thought + rest && About(u, call) ==> u in rest
  {
    ShownLast(thought, rest, call);
    ShownOfAll(thought, call, Pending);
  }

  lemma CallSays(s: State, row: Row, call: CallId)
    ensures OnlySays(Call(s, row).updates, call, if Coordinate(row) == call then Some(CallStatus(s, row)) else None)
  {
    PlansAndNotices(s, row);
    ShownOfAll(Call(s, row).updates, call, CallStatus(s, row));
  }

  lemma OneSays(u: Update, call: CallId)
    ensures OnlySays([u], call, if About(u, call) then Some(u.status) else None)
  {
    assert [u][..0] == [];
  }

  lemma OtherSays(s: State, before: seq<Event>, row: Row, call: CallId)
    requires !StartsCall(row)
    ensures OnlySays(Translate(s, row).updates, call, Says(before, row.sessionId, Entry(row), call))
  {
    var u := Translate(s, row).updates[0];
    assert Translate(s, row).updates == [u];
    OneSays(u, call);
  }

  lemma RowSays(before: seq<Event>, sessionId: int, row: Row, call: CallId)
    ensures OnlySays(LogEntry(Run(Fresh(sessionId), before).state, row).updates, call, Says(before, sessionId, Entry(row), call))
  {
    var s := Run(Fresh(sessionId), before).state;
    TablesHold(before, sessionId, 0, "");
    if row.sessionId == sessionId {
      var thought := Think(EnterLoop(s, row.loopSeq), row).state;
      if StartsCall(row) {
        KnowsAlike(s, thought, row);
        KnowsEnds(before, sessionId, row);
        CallSays(thought, row, call);
        assert Translate(thought, row).updates == Call(thought, row).updates;
      } else {
        OtherSays(thought, before, row, call);
      }
      EntrySays(s, row, call, Says(before, sessionId, Entry(row), call));
    }
  }

  lemma EndSays(before: seq<Event>, sessionId: int, entryId: int, target: Option<string>, status: int, call: CallId)
    ensures OnlySays(TerminalConcluded(Run(Fresh(sessionId), before).state, entryId, target, status).updates, call,
                     Says(before, sessionId, End(entryId, target, status), call))
  {
    var s := Run(Fresh(sessionId), before).state;
    KnowsCalls(before, sessionId, entryId, target);
    var updates := TerminalConcluded(s, entryId, target, status).updates;
    assert ConcludedCall(s, entryId, target).Some? ==> updates[1] in updates;
    ShownOfAll(updates, call, Outcome(status));
  }

  lemma StepSays(before: seq<Event>, sessionId: int, e: Event, call: CallId)
    ensures OnlySays(Step(Run(Fresh(sessionId), before).state, e).updates, call, Says(before, sessionId, e, call))
  {
    match e {
      case Entry(row) => RowSays(before, sessionId, row, call);
      case End(entryId, target, status) => EndSays(before, sessionId, entryId, target, status, call);
      case Thinking(_, _, _) =>
        ShownOfAll(Step(Run(Fresh(sessionId), before).state, e).updates, call, Pending);
    }
  }

  /** In every run, whatever its rows, deliveries and conclusions, each call is last shown with what the events say of it
      last. */
  lemma {:induction false} ShownExactly(events: seq<Event>, sessionId: int, call: CallId)
    ensures Shown(Run(Fresh(sessionId), events).updates, call) == Reported(events, sessionId, call)
    decreases |events|
  {
    if events != [] {
      var before, last := events[..|events| - 1], events[|events| - 1];
      ShownExactly(before, sessionId, call);
      StepSays(before, sessionId, last, call);
      var o := Run(Fresh(sessionId), before);
      ShownLast(o.updates, Step(o.state, last).updates, call);
    }
  }

  // ----- one row, delivered any number of times -----

  /** The event delivers the row, in whatever state: proposed, streaming or done. A delivery that streams has its stream. */
  predicate Delivers(e: Event, r: Row) {
    && e.Entry? && StartsCall(e.row) && e.row.sessionId == r.sessionId && e.row.id == r.id && Coordinate(e.row) == Coordinate(r)
    && (Address(e.row.stream) == Address(r.stream) || (Address(e.row.stream).None? && !Streams(e.row)))
  }

  /** The event delivers the row, or is not a row that could be mistaken for it: other rows of the session have their own
      ids, coordinates and streams. Conclusions are unrestricted. */
  predicate Fits(e: Event, r: Row) {
    e.Entry? ==>
      || Delivers(e, r)
      || e.row.sessionId != r.sessionId
      || (e.row.id != r.id && Coordinate(e.row) != Coordinate(r)
          && (Address(e.row.stream).Some? ==> Address(e.row.stream) != Address(r.stream)))
  }

  ghost predicate Fit(events: seq<Event>, r: Row) {
    forall e :: e in events ==> Fits(e, r)
  }

  ghost predicate Delivered(events: seq<Event>, r: Row) {
    exists e :: e in events && Delivers(e, r)
  }

  /** Some delivery has the stream's address. */
  ghost predicate Addressed(events: seq<Event>, r: Row) {
    exists e :: e in events && Delivers(e, r) && Address(e.row.stream) == Address(r.stream)
  }

  /** The conclusion names the row's stream by its address. */
  predicate ByAddress(e: Event, r: Row) {
    e.End? && Address(e.target).Some? && Address(e.target) == Address(r.stream)
  }

  /** The conclusion is the row's: by the address of its stream, or by its id when it gives no address. */
  predicate Own(e: Event, r: Row) {
    ByAddress(e, r) || (e.End? && Address(e.target).None? && e.entryId == r.id)
  }

  /** The conclusion is another stream's, but carries the row's id: the ids of stored entries and of log rows are counted
      apart. */
  predicate Foreign(e: Event, r: Row) {
    e.End? && e.entryId == r.id && Address(e.target).Some? && Address(e.target) != Address(r.stream)
  }

  /** A later row completes the call by naming it. */
  predicate Discharges(e: Event, r: Row) {
    e.Entry? && e.row.sessionId == r.sessionId && !e.row.answers && e.row.invocation == Some(Coordinate(r))
  }

  ghost predicate Discharged(events: seq<Event>, r: Row) {
    exists e :: e in events && Discharges(e, r)
  }

  lemma DeliveredNext(events: seq<Event>, r: Row)
    requires events != []
    ensures var before, last := events[..|events| - 1], events[|events| - 1];
      && (Delivered(events, r) <==> Delivered(before, r) || Delivers(last, r))
      && (Addressed(events, r) <==>
            Addressed(before, r) || (Delivers(last, r) && Address(last.row.stream) == Address(r.stream)))
      && (Discharged(events, r) <==> Discharged(before, r) || Discharges(last, r))
      && (Fit(events, r) <==> Fit(before, r) && Fits(last, r))
  {
    assert events == events[..|events| - 1] + [events[|events| - 1]];
  }

  /** The calls the events name: the row's under its own id and stream, and under no other. */
  lemma {:induction false} CallsAre(events: seq<Event>, r: Row, id: int, address: string)
    requires Fit(events, r)
    ensures LastCall(events, r.sessionId, r.id) == if Delivered(events, r) then Some(Coordinate(r)) else None
    ensures id != r.id ==> LastCall(events, r.sessionId, id) != Some(Coordinate(r))
    ensures Address(r.stream) == Some(address) ==>
              LastCallAt(events, r.sessionId, address) == if Addressed(events, r) then Some(Coordinate(r)) else None
    ensures Address(r.stream) != Some(address) ==> LastCallAt(events, r.sessionId, address) != Some(Coordinate(r))
    decreases |events|
  {
    if events != [] {
      DeliveredNext(events, r);
      CallsAre(events[..|events| - 1], r, id, address);
    }
  }

  /** The conclusion reaches the call of a row delivered before it: it carries the row's id, or names the stream with an id
      that is no other call's. */
  ghost predicate Reaches(before: seq<Event>, e: Event, r: Row) {
    && e.End?
    && ((e.entryId == r.id && Delivered(before, r))
        || (ByAddress(e, r) && Addressed(before, r) && LastCall(before, r.sessionId, e.entryId).None?))
  }

  lemma NamesRow(before: seq<Event>, e: Event, r: Row)
    requires Fit(before, r) && e.End?
    ensures NamedCall(before, r.sessionId, e.entryId, e.target) == Some(Coordinate(r)) <==> Reaches(before, e, r)
  {
    CallsAre(before, r, e.entryId, if Address(e.target).Some? then Address(e.target).value else "");
    assert Addressed(before, r) ==> Delivered(before, r);
  }

  lemma SomethingShown(updates: seq<Update>, call: CallId)
    ensures Shown(updates, call).Some? <==> exists u :: u in updates && About(u, call)
  {
    if updates != [] {
      SomethingShown(updates[..|updates| - 1], call);
      assert updates == updates[..|updates| - 1] + [updates[|updates| - 1]];
    }
  }

  /** Some update of the event reports the row's call. */
  ghost predicate Updates(before: seq<Event>, e: Event, r: Row) {
    exists u :: u in Step(Run(Fresh(r.sessionId), before).state, e).updates && About(u, Coordinate(r))
  }

  lemma UpdatesSay(before: seq<Event>, e: Event, r: Row)
    ensures Updates(before, e, r) <==> Says(before, r.sessionId, e, Coordinate(r)).Some?
  {
    StepSays(before, r.sessionId, e, Coordinate(r));
    SomethingShown(Step(Run(Fresh(r.sessionId), before).state, e).updates, Coordinate(r));
  }

  /** A conclusion that names the stream of a row delivered with it updates the row's call exactly when it carries the row's
      id or an id that is no other call's: the id is looked up first, and hides the address. */
  lemma ConclusionReachesExactly(before: seq<Event>, e: Event, r: Row)
    requires Fit(before, r) && Addressed(before, r) && ByAddress(e, r)
    ensures Updates(before, e, r) <==> e.entryId == r.id || LastCall(before, r.sessionId, e.entryId).None?
    ensures Says(before, r.sessionId, e, Coordinate(r)) == if Updates(before, e, r) then Some(Outcome(e.status)) else None
  {
    UpdatesSay(before, e, r);
    NamesRow(before, e, r);
    assert Delivered(before, r);
  }

  /** A conclusion of another stream is taken for the row's exactly when it carries the row's id: it reports the row's call
      then, and decides what later streaming deliveries of the row show exactly while the row's own stream has not concluded
      by its address. */
  lemma ForeignConclusionExactly(before: seq<Event>, e: Event, r: Row)
    requires Fit(before, r) && Delivered(before, r) && e.End? && !Own(e, r)
    ensures Updates(before, e, r) <==> Foreign(e, r)
    ensures KnownEnd(before + [e], r)
         == if Foreign(e, r) && (Address(r.stream).None? || LastEndAt(before, Address(r.stream).value).None?) then Some(e.status)
            else KnownEnd(before, r)
  {
    UpdatesSay(before, e, r);
    NamesRow(before, e, r);
    assert (before + [e])[..|before|] == before;
  }

  // ----- what the row's call is last shown with -----

  ghost predicate AddressConcluded(events: seq<Event>, r: Row) {
    Address(r.stream).Some? && LastEndAt(events, Address(r.stream).value).Some?
  }

  /** The last conclusion that carries the row's id is the row's own. */
  predicate IdRight(events: seq<Event>, r: Row)
    decreases |events|
  {
    events != [] &&
    var last := events[|events| - 1];
    !Foreign(last, r) && ((Own(last, r) && last.entryId == r.id) || IdRight(events[..|events| - 1], r))
  }

  /** Of the row's own conclusions the one a streaming delivery finds, if it finds one. */
  ghost function OwnEnd(events: seq<Event>, r: Row): Option<int> {
    if AddressConcluded(events, r) || IdRight(events, r) then KnownEnd(events, r) else None
  }

  /** The row's own conclusion whose status the events report last, unless something else of the call was reported since:
      another stream's conclusion under the row's id, or a delivery that does not show it. */
  ghost function EndShown(events: seq<Event>, r: Row): Option<int>
    decreases |events|
  {
    if events == [] then None
    else
      var before, e := events[..|events| - 1], events[|events| - 1];
      if Reaches(before, e, r) then if Own(e, r) then Some(e.status) else None
      else if Delivers(e, r) then if Streams(e.row) then OwnEnd(before, r) else None
      else EndShown(before, r)
  }

  lemma RowReported(before: seq<Event>, e: Event, r: Row)
    requires Fit(before, r) && Fits(e, r) && !Discharges(e, r)
    ensures Says(before, r.sessionId, e, Coordinate(r))
         == if Delivers(e, r) then Some(StatusAfter(before, e.row))
            else if Reaches(before, e, r) then Some(Outcome(e.status)) else None
  {
    if e.End? {
      NamesRow(before, e, r);
    }
  }

  /** A streaming delivery finds the same end as the row itself. */
  lemma SameEnd(events: seq<Event>, e: Event, r: Row)
    requires Delivers(e, r) && Streams(e.row)
    ensures KnownEnd(events, e.row) == KnownEnd(events, r)
  {
  }

  lemma {:induction false} OwnIsFound(events: seq<Event>, r: Row)
    ensures IdRight(events, r) ==> LastEnd(events, r.id).Some?
    ensures OwnEnd(events, r).Some? <==> AddressConcluded(events, r) || IdRight(events, r)
    ensures OwnEnd(events, r).Some? ==> OwnEnd(events, r) == KnownEnd(events, r)
    decreases |events|
  {
    if events != [] {
      OwnIsFound(events[..|events| - 1], r);
    }
  }

  /** Whatever the order of the row's deliveries, in whatever states, its conclusions and everything else, conclusions with
      any ids and any statuses among them: the call is last shown with the status of the own conclusion that the events
      report last. */
  lemma {:induction false} SameStatusInAnyOrder(events: seq<Event>, r: Row)
    requires Fit(events, r) && !Discharged(events, r)
    ensures EndShown(events, r).Some? ==>
      Shown(Run(Fresh(r.sessionId), events).updates, Coordinate(r)) == Some(Outcome(EndShown(events, r).value))
    decreases |events|
  {
    ShownExactly(events, r.sessionId, Coordinate(r));
    if events != [] {
      var before, e := events[..|events| - 1], events[|events| - 1];
      DeliveredNext(events, r);
      SameStatusInAnyOrder(before, r);
      ShownExactly(before, r.sessionId, Coordinate(r));
      RowReported(before, e, r);
      OwnIsFound(before, r);
      if Delivers(e, r) && Streams(e.row) {
        SameEnd(before, e, r);
      }
    }
  }

  // ----- when the row's conclusions agree -----

  ghost predicate OneStatus(events: seq<Event>, r: Row, status: int) {
    forall e :: e in events && Own(e, r) ==> e.status == status
  }

  /** Every conclusion of another stream that carries the row's id reports a different end. */
  ghost predicate OthersDiffer(events: seq<Event>, r: Row, status: int) {
    forall e :: e in events && Foreign(e, r) ==> Outcome(e.status) != Outcome(status)
  }

  /** Every delivery of the row streams. */
  ghost predicate AllStream(events: seq<Event>, r: Row) {
    forall e :: e in events && Delivers(e, r) ==> Streams(e.row)
  }

  ghost predicate EndOf(events: seq<Event>, r: Row, own: bool, status: int) {
    exists e :: e in events && (if own then Own(e, r) else Foreign(e, r)) && e.status == status
  }

  lemma EndOfNext(events: seq<Event>, r: Row, own: bool, status: int)
    requires events != [] && EndOf(events[..|events| - 1], r, own, status)
    ensures EndOf(events, r, own, status)
  {
    var e :| e in events[..|events| - 1] && (if own then Own(e, r) else Foreign(e, r)) && e.status == status;
    assert e in events;
  }

  /** What is known under the row's names comes from a conclusion of its own or of another stream. */
  lemma {:induction false} EndsComeFrom(events: seq<Event>, r: Row)
    ensures AddressConcluded(events, r) ==> EndOf(events, r, true, LastEndAt(events, Address(r.stream).value).value)
    ensures LastEnd(events, r.id).Some? ==> EndOf(events, r, IdRight(events, r), LastEnd(events, r.id).value)
    decreases |events|
  {
    if events != [] {
      var before, e := events[..|events| - 1], events[|events| - 1];
      assert e in events;
      EndsComeFrom(before, r);
      if AddressConcluded(before, r) {
        EndOfNext(events, r, true, LastEndAt(before, Address(r.stream).value).value);
      }
      if LastEnd(before, r.id).Some? {
        EndOfNext(events, r, IdRight(before, r), LastEnd(before, r.id).value);
      }
    }
  }

  lemma {:induction false} EndShownIsOwn(events: seq<Event>, r: Row)
    ensures EndShown(events, r).Some? ==> EndOf(events, r, true, EndShown(events, r).value)
    decreases |events|
  {
    if events != [] {
      var before, e := events[..|events| - 1], events[|events| - 1];
      assert e in events;
      EndShownIsOwn(before, r);
      EndsComeFrom(before, r);
      if EndShown(events, r).Some? && !Reaches(before, e, r) {
        EndOfNext(events, r, true, EndShown(events, r).value);
      }
    }
  }

  /** What is said of a row that streams, when it is not its own end. */
  ghost predicate NotItsEnd(said: Option<ToolStatus>, events: seq<Event>, r: Row) {
    said == None || said == Some(InProgress) || exists status :: EndOf(events, r, false, status) && said == Some(Outcome(status))
  }

  lemma NotItsEndNext(said: Option<ToolStatus>, events: seq<Event>, r: Row)
    requires events != [] && NotItsEnd(said, events[..|events| - 1], r)
    ensures NotItsEnd(said, events, r)
  {
    if said != None && said != Some(InProgress) {
      var status :| EndOf(events[..|events| - 1], r, false, status) && said == Some(Outcome(status));
      EndOfNext(events, r, false, status);
    }
  }

  lemma DeliverySays(before: seq<Event>, e: Event, r: Row)
    requires Delivers(e, r) && Streams(e.row) && OwnEnd(before, r).None?
    ensures NotItsEnd(Some(StatusAfter(before, e.row)), before, r)
  {
    OwnIsFound(before, r);
    SameEnd(before, e, r);
    EndsComeFrom(before, r);
  }

  lemma {:induction false} ElseNotItsEnd(events: seq<Event>, r: Row)
    requires Fit(events, r) && !Discharged(events, r) && AllStream(events, r)
    ensures EndShown(events, r).None? ==> NotItsEnd(Reported(events, r.sessionId, Coordinate(r)), events, r)
    decreases |events|
  {
    if events != [] {
      var before, e := events[..|events| - 1], events[|events| - 1];
      DeliveredNext(events, r);
      assert e in events && forall x :: x in before ==> x in events;
      ElseNotItsEnd(before, r);
      RowReported(before, e, r);
      if Delivers(e, r) {
        if OwnEnd(before, r).None? {
          DeliverySays(before, e, r);
          NotItsEndNext(Some(StatusAfter(before, e.row)), events, r);
        }
      } else if Reaches(before, e, r) {
        assert !Own(e, r) ==> EndOf(events, r, false, e.status);
      } else if EndShown(before, r).None? {
        NotItsEndNext(Reported(before, r.sessionId, Coordinate(r)), events, r);
      }
    }
  }

  /** When the row's conclusions agree, and conclusions of others under its id do not, the call is last shown with that end
      exactly when it is the one the events report last. */
  lemma EndExactly(events: seq<Event>, r: Row, status: int)
    requires Fit(events, r) && !Discharged(events, r) && AllStream(events, r)
    requires OneStatus(events, r, status) && OthersDiffer(events, r, status)
    ensures Shown(Run(Fresh(r.sessionId), events).updates, Coordinate(r)) == Some(Outcome(status)) <==> EndShown(events, r).Some?
  {
    ShownExactly(events, r.sessionId, Coordinate(r));
    SameStatusInAnyOrder(events, r);
    EndShownIsOwn(events, r);
    ElseNotItsEnd(events, r);
  }

  /** A conclusion of the row at `i` and a delivery of it at `j` meet: the delivery comes later, or the conclusion's id does
      not hide the address. */
  predicate Meet(events: seq<Event>, r: Row, i: nat, j: nat)
    requires i < |events| && j < |events|
  {
    && Own(events[i], r) && Delivers(events[j], r)
    && (i < j || events[i].entryId == r.id || LastCall(events[..i], r.sessionId, events[i].entryId).None?)
  }

  ghost predicate SomeMeet(events: seq<Event>, r: Row) {
    exists i: nat, j: nat :: i < |events| && j < |events| && Meet(events, r, i, j)
  }

  ghost predicate SomeOwn(events: seq<Event>, r: Row) {
    exists e :: e in events && Own(e, r)
  }

  lemma {:induction false} OwnIsKept(events: seq<Event>, r: Row)
    requires forall e :: e in events ==> !Foreign(e, r)
    ensures OwnEnd(events, r).Some? <==> SomeOwn(events, r)
    decreases |events|
  {
    OwnIsFound(events, r);
    if events != [] {
      var before, e := events[..|events| - 1], events[|events| - 1];
      assert events == before + [e] && !Foreign(e, r);
      assert SomeOwn(events, r) <==> SomeOwn(before, r) || Own(e, r);
      OwnIsKept(before, r);
      OwnIsFound(before, r);
    }
  }

  lemma MeetBefore(events: seq<Event>, r: Row, i: nat, j: nat)
    requires i < |events| - 1 && j < |events| - 1
    ensures Meet(events, r, i, j) <==> Meet(events[..|events| - 1], r, i, j)
  {
    assert events[..|events| - 1][..i] == events[..i];
  }

  lemma MeetNext(events: seq<Event>, r: Row)
    requires events != []
    ensures var before, e := events[..|events| - 1], events[|events| - 1];
      SomeMeet(events, r) <==>
        (SomeMeet(before, r) || (Delivers(e, r) && SomeOwn(before, r))
         || (Own(e, r) && Delivered(before, r) && (e.entryId == r.id || LastCall(before, r.sessionId, e.entryId).None?)))
  {
    var n := |events| - 1;
    var before, e := events[..n], events[n];
    forall i: nat, j: nat | i < n && j < n ensures Meet(events, r, i, j) <==> Meet(before, r, i, j) {
      MeetBefore(events, r, i, j);
    }
    if SomeMeet(before, r) {
      var i: nat, j: nat :| i < |before| && j < |before| && Meet(before, r, i, j);
      assert Meet(events, r, i, j);
    }
    if Delivers(e, r) && SomeOwn(before, r) {
      var x :| x in before && Own(x, r);
      var i: nat :| i < n && before[i] == x;
      assert Meet(events, r, i, n);
    }
    if Own(e, r) && Delivered(before, r) && (e.entryId == r.id || LastCall(before, r.sessionId, e.entryId).None?) {
      var x :| x in before && Delivers(x, r);
      var j: nat :| j < n && before[j] == x;
      assert Meet(events, r, n, j);
    }
    if SomeMeet(events, r) {
      var i: nat, j: nat :| i < |events| && j < |events| && Meet(events, r, i, j);
      assert i < n ==> events[i] in before;
      assert j < n ==> events[j] in before;
      assert i < n && j < n ==> Meet(before, r, i, j);
    }
  }

  /** Without other streams' conclusions under the row's id the order does not matter at all, except that a conclusion
      arriving after the last delivery must find the call: it carries the row's id or the id of no call. */
  lemma {:induction false} SettlesInAnyOrder(events: seq<Event>, r: Row)
    requires AllStream(events, r) && forall e :: e in events ==> !Foreign(e, r)
    ensures EndShown(events, r).Some? <==> SomeMeet(events, r)
    decreases |events|
  {
    if events != [] {
      var before, e := events[..|events| - 1], events[|events| - 1];
      assert events == before + [e] && e in events && forall x :: x in before ==> x in events;
      SettlesInAnyOrder(before, r);
      MeetNext(events, r);
      OwnIsKept(before, r);
      assert Delivered(before, r) ==> Addressed(before, r);
      assert Addressed(before, r) ==> Delivered(before, r);
      if Delivers(e, r) && !SomeOwn(before, r) {
        NoMeet(before, r);
      }
    }
  }

  lemma NoMeet(events: seq<Event>, r: Row)
    requires !SomeOwn(events, r)
    ensures !SomeMeet(events, r)
  {
    assert forall i: nat :: i < |events| ==> events[i] in events;
  }

  // ----- after the conclusion -----

  lemma {:induction false} OwnIsKnown(events: seq<Event>, r: Row)
    requires SomeOwn(events, r)
    ensures KnownEnd(events, r).Some?
    decreases |events|
  {
    var before, e := events[..|events| - 1], events[|events| - 1];
    assert events == before + [e];
    if !Own(e, r) {
      assert SomeOwn(before, r);
      OwnIsKnown(before, r);
    }
  }

  /** Some update of the event reports the row's call in progress. */
  ghost predicate ShowsInProgress(s: State, e: Event, r: Row) {
    exists u :: u in Step(s, e).updates && About(u, Coordinate(r)) && u.status == InProgress
  }

  lemma SaysInProgress(before: seq<Event>, e: Event, r: Row)
    requires Fits(e, r) && SomeOwn(before, r)
    ensures Says(before, r.sessionId, e, Coordinate(r)) == Some(InProgress) <==> Discharges(e, r) && ToolStatusOf(e.row) == InProgress
  {
    OwnIsKnown(before, r);
    if Delivers(e, r) && Streams(e.row) {
      SameEnd(before, e, r);
    }
  }

  /** Once a conclusion of the row has arrived, whatever its id, an event reports the call in progress exactly when it is
      another row that names the call as its invocation and is itself still streaming. */
  lemma ReopenedExactly(before: seq<Event>, e: Event, r: Row)
    requires Fits(e, r) && SomeOwn(before, r)
    ensures ShowsInProgress(Run(Fresh(r.sessionId), before).state, e, r) <==> Discharges(e, r) && ToolStatusOf(e.row) == InProgress
  {
    StepSays(before, r.sessionId, e, Coordinate(r));
    SomethingShown(Step(Run(Fresh(r.sessionId), before).state, e).updates, Coordinate(r));
    SaysInProgress(before, e, r);
  }

  lemma {:induction false} RunAppends(s: State, a: seq<Event>, b: seq<Event>)
    ensures Run(s, a + b).state == Run(Run(s, a).state, b).state
    decreases |b|
  {
    if b == [] {
      assert a + b == a;
    } else {
      RunAppends(s, a, b[..|b| - 1]);
      assert (a + b)[..|a + b| - 1] == a + b[..|b| - 1];
    }
  }

  /** Once a conclusion of the row has arrived, whatever its id, and unless another row discharges the call, the call is
      never reported in progress again. */
  lemma {:induction false} NeverInProgressAgain(before: seq<Event>, after: seq<Event>, r: Row)
    requires Fit(after, r) && !Discharged(after, r) && SomeOwn(before, r)
    ensures forall u :: u in Run(Run(Fresh(r.sessionId), before).state, after).updates && About(u, Coordinate(r)) ==>
              u.status != InProgress
    decreases |after|
  {
    if after != [] {
      var init, last := after[..|after| - 1], after[|after| - 1];
      DeliveredNext(after, r);
      NeverInProgressAgain(before, init, r);
      RunAppends(Fresh(r.sessionId), before, init);
      assert SomeOwn(before + init, r);
      ReopenedExactly(before + init, last, r);
      var o := Run(Run(Fresh(r.sessionId), before).state, init);
      forall u | u in Step(o.state, last).updates && About(u, Coordinate(r)) ensures u.status != InProgress {
        assert u.status == InProgress ==> ShowsInProgress(o.state, last, r);
      }
    }
  }

  // ----- runs that go wrong -----

  /** A row of a call that streams to `stream`. */
  function Streaming(id: int, sequence: nat, stream: string): Row {
    Row(id, 7, 1, 1, sequence, 1, Some("sh"), OtherState, 200, Some(stream), false, false, None, false, false, [], None, false, None)
  }

  lemma ReportedNext(before: seq<Event>, e: Event, sessionId: int, call: CallId)
    ensures Reported(before + [e], sessionId, call)
         == if Says(before, sessionId, e, call).Some? then Says(before, sessionId, e, call) else Reported(before, sessionId, call)
  {
    assert (before + [e])[..|before|] == before;
  }

  /** What two or three events report. */
  lemma ReportedThree(a: Event, b: Event, c: Event, sessionId: int, call: CallId)
    ensures var x, y, z := Says([], sessionId, a, call), Says([a], sessionId, b, call), Says([a, b], sessionId, c, call);
      && Reported([a, b], sessionId, call) == (if y.Some? then y else x)
      && Reported([a, b, c], sessionId, call) == (if z.Some? then z else if y.Some? then y else x)
  {
    ReportedNext([], a, sessionId, call);
    ReportedNext([a], b, sessionId, call);
    ReportedNext([a, b], c, sessionId, call);
    assert [] + [a] == [a] && [a] + [b] == [a, b] && [a, b] + [c] == [a, b, c];
  }

  lemma KnownAfterOne(a: Event, id: int, sessionId: int)
    ensures LastEnd([a], id) == if a.End? && a.entryId == id then Some(a.status) else None
    ensures LastCall([a], sessionId, id)
         == if a.Entry? && Starts(sessionId, a.row) && a.row.id == id then Some(Coordinate(a.row)) else None
    ensures LastCall([], sessionId, id) == None && LastEnd([], id) == None
  {
    assert [a][..0] == [];
  }

  lemma KnownAfterTwo(a: Event, b: Event, id: int, sessionId: int)
    ensures LastEnd([a, b], id) == if b.End? && b.entryId == id then Some(b.status) else LastEnd([a], id)
    ensures LastCall([a, b], sessionId, id)
         == if b.Entry? && Starts(sessionId, b.row) && b.row.id == id then Some(Coordinate(b.row)) else LastCall([a], sessionId, id)
  {
    assert [a, b][..1] == [a];
  }

  lemma KnownAtAddress(a: Event, b: Event, address: string)
    ensures LastEndAt([], address) == None
    ensures LastEndAt([a], address) == if a.End? && Address(a.target) == Some(address) then Some(a.status) else None
    ensures LastEndAt([a, b], address)
         == if b.End? && Address(b.target) == Some(address) then Some(b.status) else LastEndAt([a], address)
  {
    assert [a, b][..1] == [a] && [a][..0] == [];
  }

  /** Two calls of a session, each with a stream of its own. */
  predicate TwoCalls(other: Row, r: Row) {
    && Streams(other) && Streams(r) && other.sessionId == r.sessionId && other.id != r.id && Coordinate(other) != Coordinate(r)
    && Address(other.stream).Some? && Address(r.stream).Some? && Address(other.stream) != Address(r.stream)
  }

  /** The row's stream has concluded and its call is shown in progress, while another call, whose stream has not, is shown
      completed. */
  ghost predicate Missed(events: seq<Event>, r: Row, other: Row) {
    && Streams(r) && Fit(events, r) && SomeOwn(events, r) && !Discharged(events, r)
    && Streams(other) && Fit(events, other) && !SomeOwn(events, other) && !Discharged(events, other)
    && Shown(Run(Fresh(r.sessionId), events).updates, Coordinate(r)) == Some(InProgress)
    && Shown(Run(Fresh(r.sessionId), events).updates, Coordinate(other)) == Some(Completed)
  }

  /** So it goes whenever the conclusion's entry id is also the log id of another call. */
  lemma ConclusionMisses(other: Row, r: Row, z: Event)
    requires TwoCalls(other, r) && ByAddress(z, r) && z.entryId == other.id && z.status < 400
    ensures Missed([Entry(other), Entry(r), z], r, other)
  {
    var events := [Entry(other), Entry(r), z];
    assert forall e :: e in events <==> e == Entry(other) || e == Entry(r) || e == z;
    assert z in events && Own(z, r);
    MissedReports(other, r, z, Coordinate(r));
    MissedReports(other, r, z, Coordinate(other));
    ShownExactly(events, r.sessionId, Coordinate(r));
    ShownExactly(events, r.sessionId, Coordinate(other));
  }

  lemma MissedReports(other: Row, r: Row, z: Event, call: CallId)
    requires TwoCalls(other, r) && ByAddress(z, r) && z.entryId == other.id
    requires call == Coordinate(r) || call == Coordinate(other)
    ensures Reported([Entry(other), Entry(r), z], r.sessionId, call)
         == Some(if call == Coordinate(r) then InProgress else Outcome(z.status))
  {
    var x, y := Entry(other), Entry(r);
    ReportedThree(x, y, z, r.sessionId, call);
    KnownAfterTwo(x, y, z.entryId, r.sessionId);
    KnownAfterOne(x, z.entryId, r.sessionId);
    KnownAfterOne(x, r.id, r.sessionId);
    KnownAtAddress(x, y, Address(r.stream).value);
  }

  /** The failing input: stream "a" of row 500 concludes with entry id 42, which is also a log row's. */
  lemma ConclusionCanMiss()
    ensures exists events, r, other :: Missed(events, r, other)
  {
    ConclusionMisses(Streaming(42, 1, "b"), Streaming(500, 2, "a"), End(42, Some("a"), 200));
  }

  /** The call, whose stream has not concluded, is shown failed, and shown failed again when its row is delivered anew. */
  ghost predicate Strayed(events: seq<Event>, r: Row) {
    && Streams(r) && Fit(events, r) && !SomeOwn(events, r) && !Discharged(events, r)
    && Shown(Run(Fresh(r.sessionId), events).updates, Coordinate(r)) == Some(FailedCall)
    && Shown(Run(Fresh(r.sessionId), events + [Entry(r)]).updates, Coordinate(r)) == Some(FailedCall)
  }

  /** So it goes whenever another stream fails with the row's log id as its entry id. */
  lemma ConclusionStrays(r: Row, y: Event)
    requires Streams(r) && Foreign(y, r) && y.status >= 400
    ensures Strayed([Entry(r), y], r)
  {
    var x, call := Entry(r), Coordinate(r);
    assert forall e :: e in [x, y] <==> e == x || e == y;
    assert [x, y] + [x] == [x, y, x];
    StrayedReports(r, y);
    ShownExactly([x, y], r.sessionId, call);
    ShownExactly([x, y, x], r.sessionId, call);
  }

  lemma StrayedReports(r: Row, y: Event)
    requires Streams(r) && Foreign(y, r)
    ensures Reported([Entry(r), y], r.sessionId, Coordinate(r)) == Some(Outcome(y.status))
    ensures Reported([Entry(r), y, Entry(r)], r.sessionId, Coordinate(r)) == Some(Outcome(y.status))
  {
    ReportedThree(Entry(r), y, Entry(r), r.sessionId, Coordinate(r));
    KnownAfterOne(Entry(r), r.id, r.sessionId);
    KnownAfterTwo(Entry(r), y, r.id, r.sessionId);
    KnownAtAddress(Entry(r), y, if Address(r.stream).Some? then Address(r.stream).value else "");
  }

  /** The failing input: stream "b" fails with entry id 42, which is also the log id of the row streaming to "a". */
  lemma ConclusionCanStray()
    ensures exists events, r :: Strayed(events, r)
  {
    ConclusionStrays(Streaming(42, 1, "a"), End(42, Some("b"), 500));
  }

  /** The events report the row's end, and then the call in progress all the same. */
  ghost predicate Reopened(events: seq<Event>, e: Event, r: Row) {
    && Streams(r) && Fit(events + [e], r) && EndShown(events, r).Some?
    && Shown(Run(Fresh(r.sessionId), events + [e]).updates, Coordinate(r)) == Some(InProgress)
  }

  /** So it goes whenever another row names the call as its invocation while it streams itself. */
  lemma DischargeReopens(r: Row, y: Event, later: Row)
    requires Streams(r) && Own(y, r) && y.entryId == r.id
    requires Fits(Entry(later), r) && Discharges(Entry(later), r) && ToolStatusOf(later) == InProgress
    ensures Reopened([Entry(r), y], Entry(later), r)
  {
    var x, z := Entry(r), Entry(later);
    assert x in [x] && Delivers(x, r) && [x, y][..1] == [x];
    assert [x, y] + [z] == [x, y, z];
    ReportedThree(x, y, z, r.sessionId, Coordinate(r));
    ShownExactly([x, y, z], r.sessionId, Coordinate(r));
  }

  /** The failing input. */
  lemma DischargeCanReopen()
    ensures exists events, e, r :: Reopened(events, e, r)
  {
    var r := Streaming(1, 1, "a");
    DischargeReopens(r, End(1, Some("a"), 200), Streaming(2, 2, "b").(invocation := Some(Coordinate(r))));
  }

  /** The row's stream failed and its call was shown failed; then a further conclusion shows it completed. */
  ghost predicate Overwritten(events: seq<Event>, e: Event, r: Row) {
    && Streams(r) && Fit(events + [e], r) && !Discharged(events + [e], r) && Own(e, r)
    && Shown(Run(Fresh(r.sessionId), events).updates, Coordinate(r)) == Some(FailedCall)
    && Shown(Run(Fresh(r.sessionId), events + [e]).updates, Coordinate(r)) == Some(Completed)
  }

  /** So it goes whenever a replay reports the end of the stream with the status of the row itself, which is below 400 while
      it streams, after a live failure. */
  lemma ReplayOverwrites(r: Row, failure: Event)
    requires Streams(r) && Address(r.stream).Some? && ByAddress(failure, r) && failure.status >= 400
    ensures Overwritten([failure, Entry(r)], End(r.id, r.stream, r.statusRx), r)
  {
    var y, z := Entry(r), End(r.id, r.stream, r.statusRx);
    assert [failure, y] + [z] == [failure, y, z];
    assert Fits(failure, r) && Fits(y, r) && Fits(z, r) && Own(z, r);
    assert !Discharges(failure, r) && !Discharges(y, r) && !Discharges(z, r);
    OverwriteReports(r, failure, z);
    ShownExactly([failure, y], r.sessionId, Coordinate(r));
    ShownExactly([failure, y, z], r.sessionId, Coordinate(r));
  }

  lemma OverwriteReports(r: Row, failure: Event, z: Event)
    requires Streams(r) && ByAddress(failure, r) && z.End? && z.entryId == r.id
    ensures Reported([failure, Entry(r)], r.sessionId, Coordinate(r)) == Some(Outcome(failure.status))
    ensures Reported([failure, Entry(r), z], r.sessionId, Coordinate(r)) == Some(Outcome(z.status))
  {
    var y := Entry(r);
    ReportedThree(failure, y, z, r.sessionId, Coordinate(r));
    KnownAfterOne(failure, r.id, r.sessionId);
    KnownAfterTwo(failure, y, r.id, r.sessionId);
    KnownAtAddress(failure, y, Address(r.stream).value);
  }

  /** The failing input: stream "a" failed with 500 before its row came, and the row's own status is 200. */
  lemma FailureCanBeOverwritten()
    ensures exists events, e, r :: Overwritten(events, e, r)
  {
    ReplayOverwrites(Streaming(500, 2, "a"), End(42, Some("a"), 500));
  }

  // ----- reasoning -----

  /** A turn's reasoning is shown by its rows at most once, and by none of them after it was shown while streaming. */
  lemma {:induction false} ThoughtOnce(s: State, events: seq<Event>, turnId: int)
    requires turnId in s.streamedReasoning && forall e :: e in events ==> !e.Thinking?
    ensures Thought(turnId) !in Run(s, events).updates && turnId in Run(s, events).state.streamedReasoning
    decreases |events|
  {
    if events != [] {
      var init, last := events[..|events| - 1], events[|events| - 1];
      assert forall x :: x in init ==> x in events;
      ThoughtOnce(s, init, turnId);
      StaysStreamed(Run(s, init).state, last, turnId);
    }
  }

  lemma OnlyThinkingThinks(s: State, row: Row)
    ensures Translate(s, row).state.streamedReasoning == s.streamedReasoning
    ensures forall u :: u in Translate(s, row).updates ==> !u.Thought?
  {
    assert forall u :: u in CallUpdates(s, row) ==> !u.Thought?;
  }

  lemma StaysStreamed(s: State, e: Event, turnId: int)
    requires !e.Thinking?
    ensures turnId in s.streamedReasoning ==> turnId in Step(s, e).state.streamedReasoning && Thought(turnId) !in Step(s, e).updates
    ensures Thought(turnId) in Step(s, e).updates ==> turnId in Step(s, e).state.streamedReasoning
  {
    match e {
      case Entry(row) => OnlyThinkingThinks(Think(EnterLoop(s, row.loopSeq), row).state, row);
      case End(_, _, _) =>
    }
  }
}
