/** What a replayed page last shows of each call: in progress exactly while its stream is still open, by what the daemon has
    open and what the log holds after it (plurnk-acp/src/replay.ts). */
module ReplayStreams {

  import opened Optional
  import opened Paging
  import opened Replay
  import opened Translator
  import opened TranslatorLoops
  import opened TranslatorStreams
  import Live = ReplayLive

  predicate LaterTurn(x: Row, row: Row) {
    x.loopSeq > row.loopSeq || (x.loopSeq == row.loopSeq && x.turnSeq > row.turnSeq)
  }

  /** The stream of row `k` is open as far as anyone knows: the daemon has it open, or does not say, no later row is its result,
      and no row is of a later turn. */
  ghost predicate StillOpen(active: seq<Row>, open: Option<set<string>>, k: nat)
    requires k < |active|
  {
    && active[k].stream.Some?
    && (open.None? || active[k].stream.value in open.value)
    && (forall j: nat :: k < j < |active| ==> active[j].address != active[k].stream)
    && (forall x :: x in active ==> !LaterTurn(x, active[k]))
  }

  /** The other row names neither the call's coordinate nor the call. */
  predicate Apart(sessionId: int, x: Row, call: CallId) {
    x.sessionId == sessionId ==> Coordinate(x) != call && (!x.answers ==> x.invocation != Some(call))
  }

  /** No other row could be mistaken for the call of row `k` or completes it. */
  ghost predicate Alone(sessionId: int, active: seq<Row>, k: nat)
    requires k < |active|
  {
    forall i: nat :: i < |active| && i != k ==> Apart(sessionId, active[i], Coordinate(active[k]))
  }

  /** The status the page ends with for a call: the row's own, or how its ended stream leaves it. */
  ghost function Last(active: seq<Row>, open: Option<set<string>>, k: nat): ToolStatus
    requires k < |active|
  {
    var row := active[k];
    if row.stream.None? || StillOpen(active, open, k) then ToolStatusOf(row) else Outcome(row.statusRx)
  }

  // ----- one row -----

  lemma NotOpen(active: seq<Row>, open: Option<set<string>>, k: nat)
    requires k < |active| && InOrder(active) && active[k].stream.Some?
    ensures ItemAt(active, open, k).ended <==> !StillOpen(active, open, k)
  {
    var row := active[k];
    assert forall j: nat :: j < |active| ==> active[j] in active;
    forall x | x in active && LaterTurn(x, row) ensures ItemAt(active, open, k).ended {
      var j: nat :| j < |active| && active[j] == x;
      assert j < k ==> !Precedes(active[k], active[j]);
    }
  }

  lemma OwnSays(s: State, item: Item)
    requires Starts(s.sessionId, item.row) && Concluded(s, item.row).None?
    ensures Shown(Deliver(s, item).updates, Coordinate(item.row))
         == Some(if item.ended && item.row.stream.Some? then Outcome(item.row.statusRx) else ToolStatusOf(item.row))
  {
    var row, call := item.row, Coordinate(item.row);
    var thought := Think(EnterLoop(s, row.loopSeq), row);
    KnowsAlike(s, thought.state, row);
    CallSays(thought.state, row, call);
    EntrySays(s, row, call, Some(ToolStatusOf(row)));
    OnlyShows(LogEntry(s, row).updates, call, Some(ToolStatusOf(row)));
    if item.ended && row.stream.Some? {
      EntryTouches(s, row);
      var end := TerminalConcluded(LogEntry(s, row).state, row.id, row.stream, row.statusRx).updates;
      assert end == [Terminal(row.id, false, Some(ExitCode(row.statusRx))), ToolCall(row.id, call, Outcome(row.statusRx), row.statusRx)];
      ShownLast(LogEntry(s, row).updates, end, call);
    }
  }

  lemma OnlyShows(updates: seq<Update>, call: CallId, said: Option<ToolStatus>)
    requires OnlySays(updates, call, said)
    ensures Shown(updates, call) == said
  {
  }

  lemma OtherEntrySays(s: State, row: Row, call: CallId)
    requires Apart(s.sessionId, row, call)
    ensures Shown(LogEntry(s, row).updates, call) == None
  {
    if row.sessionId == s.sessionId {
      var thought := Think(EnterLoop(s, row.loopSeq), row).state;
      if StartsCall(row) {
        CallSays(thought, row, call);
      } else {
        OtherSays(thought, [], row, call);
      }
      EntrySays(s, row, call, None);
    }
  }

  lemma OtherEndSays(s: State, row: Row, call: CallId)
    requires Apart(s.sessionId, row, call) && ConcludedCall(s, row.id, row.stream).None?
    ensures Shown(TerminalConcluded(LogEntry(s, row).state, row.id, row.stream, row.statusRx).updates, call) == None
  {
    EntryTouches(s, row);
    var end := TerminalConcluded(LogEntry(s, row).state, row.id, row.stream, row.statusRx).updates;
    assert forall u :: u in end ==> !About(u, call);
    ShownOfAll(end, call, Pending);
  }

  lemma OtherSaysNothing(s: State, item: Item, call: CallId)
    requires Apart(s.sessionId, item.row, call) && ConcludedCall(s, item.row.id, item.row.stream).None?
    ensures Shown(Deliver(s, item).updates, call) == None
  {
    var row := item.row;
    OtherEntrySays(s, row, call);
    if item.ended && row.stream.Some? {
      OtherEndSays(s, row, call);
      ShownLast(LogEntry(s, row).updates, TerminalConcluded(LogEntry(s, row).state, row.id, row.stream, row.statusRx).updates, call);
    }
  }

  // ----- all rows of a loop -----

  lemma {:induction false} NoneSay(pieces: seq<seq<Update>>, call: CallId)
    requires forall i: nat :: i < |pieces| ==> Shown(pieces[i], call) == None
    ensures Shown(Live.Joined(pieces), call) == None
    decreases |pieces|
  {
    if pieces != [] {
      var init, last := pieces[..|pieces| - 1], pieces[|pieces| - 1];
      assert forall i: nat :: i < |init| ==> init[i] == pieces[i];
      NoneSay(init, call);
      ShownLast(Live.Joined(init), last, call);
    }
  }

  lemma {:induction false} OneSaysAll(pieces: seq<seq<Update>>, k: nat, call: CallId)
    requires k < |pieces| && forall i: nat :: i < |pieces| && i != k ==> Shown(pieces[i], call) == None
    ensures Shown(Live.Joined(pieces), call) == Shown(pieces[k], call)
    decreases |pieces|
  {
    var init, last := pieces[..|pieces| - 1], pieces[|pieces| - 1];
    assert forall i: nat :: i < |init| ==> init[i] == pieces[i];
    ShownLast(Live.Joined(init), last, call);
    if k < |init| {
      OneSaysAll(init, k, call);
    } else {
      NoneSay(init, call);
    }
  }

  /** What row `i` of a loop shows of the call of row `k`, through a new translator. */
  lemma RowShows(sessionId: int, active: seq<Row>, open: Option<set<string>>, selected: seq<nat>, i: nat, k: nat)
    requires i < |active| && k < |active| && InOrder(active) && Live.WellKept(active)
    requires Starts(sessionId, active[k]) && Alone(sessionId, active, k)
    ensures Shown(Live.Shown(Fresh(sessionId), active, open, selected, i), Coordinate(active[k]))
         == if i == k then Some(Last(active, open, k)) else None
  {
    var s := Fresh(sessionId);
    Live.StandingPasses(s, active, open, selected, i, i);
    var standing, item := Standing(s, active, open, selected, i), ItemAt(active, open, i);
    assert Concluded(s, active[i]) == None && ConcludedCall(s, active[i].id, active[i].stream) == None;
    if i == k {
      if active[k].stream.Some? {
        NotOpen(active, open, k);
      }
      OwnSays(standing, item);
    } else {
      OtherSaysNothing(standing, item, Coordinate(active[k]));
    }
  }

  /** Of the loops only the row's own shows its call. */
  lemma LoopShows(sessionId: int, active: seq<Row>, open: Option<set<string>>, selected: seq<nat>, loop: nat, k: nat)
    requires k < |active| && InOrder(active) && Live.WellKept(active)
    requires Starts(sessionId, active[k]) && Alone(sessionId, active, k)
    ensures Shown(Shares(Fresh(sessionId), active, open, selected)(loop), Coordinate(active[k]))
         == if loop == active[k].loopSeq then Some(Last(active, open, k)) else None
  {
    var s, call := Fresh(sessionId), Coordinate(active[k]);
    var pieces := Live.Pieces(s, active, open, selected, loop);
    Live.ShareIsJoined(s, active, open, selected, loop);
    forall i: nat | i < |pieces|
      ensures Shown(pieces[i], call) == if i == k && active[k].loopSeq == loop then Some(Last(active, open, k)) else None
    {
      RowShows(sessionId, active, open, selected, i, k);
    }
    if loop == active[k].loopSeq {
      OneSaysAll(pieces, k, call);
    } else {
      NoneSay(pieces, call);
    }
  }

  // ----- the page -----

  lemma {:induction false} PageShows(page: seq<nat>, show: nat -> seq<Update>, call: CallId, loop: nat, said: ToolStatus)
    requires forall l: nat :: l in page ==> Shown(show(l), call) == if l == loop then Some(said) else None
    ensures Shown(Concat(page, show), call) == if loop in page then Some(said) else None
    decreases |page|
  {
    if page != [] {
      assert forall l: nat :: l in page[1..] ==> l in page;
      PageShows(page[1..], show, call, loop, said);
      ShownLast(show(page[0]), Concat(page[1..], show), call);
    }
  }

  /** Through a new translator the page last shows a call of one of its loops with the row's own status while its stream is
      still open, and with the outcome of the row's status once it is not; a page without the loop does not show the call. */
  lemma CallsEndExactly(sessionId: int, rows: seq<Row>, options: Options, size: seq<Update> -> nat, k: nat)
    requires k < |Active(rows)| && Live.WellKept(Active(rows))
    requires Starts(sessionId, Active(rows)[k]) && Alone(sessionId, Active(rows), k)
    ensures var active, open := Active(rows), options.openStreamTargets;
      var show := Shares(Fresh(sessionId), active, open, Selected(active, options));
      var page := Page(LoopsOf(active), options.cursor, options.limits, SizesOf(show, size));
      Shown(PageOf(active, options, show, size).updates, Coordinate(active[k]))
        == if active[k].loopSeq in page then Some(Last(active, open, k)) else None
  {
    var active, open := Active(rows), options.openStreamTargets;
    ActiveKeeps(rows);
    var selected := Selected(active, options);
    var show := Shares(Fresh(sessionId), active, open, selected);
    forall l: nat ensures Shown(show(l), Coordinate(active[k])) == if l == active[k].loopSeq then Some(Last(active, open, k)) else None {
      LoopShows(sessionId, active, open, selected, l, k);
    }
    PageShows(Page(LoopsOf(active), options.cursor, options.limits, SizesOf(show, size)), show, Coordinate(active[k]),
              active[k].loopSeq, Last(active, open, k));
  }

  /** A streaming call is replayed in progress exactly while its stream is still open, and completed otherwise. */
  lemma InProgressExactly(sessionId: int, rows: seq<Row>, options: Options, size: seq<Update> -> nat, k: nat)
    requires k < |Active(rows)| && Live.WellKept(Active(rows))
    requires Active(rows)[k].sessionId == sessionId && Streams(Active(rows)[k]) && Alone(sessionId, Active(rows), k)
    ensures var active, open := Active(rows), options.openStreamTargets;
      var show := Shares(Fresh(sessionId), active, open, Selected(active, options));
      active[k].loopSeq in Page(LoopsOf(active), options.cursor, options.limits, SizesOf(show, size)) ==>
        var last := Shown(PageOf(active, options, show, size).updates, Coordinate(active[k]));
        && (last == Some(InProgress) <==> StillOpen(active, open, k))
        && (last == Some(Completed) <==> !StillOpen(active, open, k))
  {
    CallsEndExactly(sessionId, rows, options, size, k);
  }
}
