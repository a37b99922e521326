/** When a replay shows a loop as a fresh translator by itself would: whichever other loops it translates, and exactly
    unless traffic translated before met one of the loop's rows or left a plan they tell apart
    (plurnk-acp/src/replay.ts, plurnk-acp/src/SessionTranslator.ts). */
module ReplayLive {

  import opened Optional
  import opened Paging
  import opened Replay
  import opened Translator
  import opened TranslatorLoops
  import opened TranslatorPlans
  import Streams = TranslatorStreams

  /** Rows have their own ids and streams, turns belong to one loop. */
  ghost predicate WellKept(active: seq<Row>) {
    forall i: nat, j: nat :: i < j < |active| ==> Unlike(active[i], active[j]) && OneLoopPerTurn(active[i], active[j])
  }

  predicate OneLoopPerTurn(a: Row, b: Row) {
    a.turnId == b.turnId ==> a.loopSeq == b.loopSeq
  }

  /** What the state keeps changes what the item shows: its turn was shown thinking, the end of its stream is known, or,
      for a row that is no call, the end of its stream reaches one. */
  predicate Marked(s: State, item: Item) {
    var row := item.row;
    || (Thinks(s.sessionId, row) && row.turnId in s.streamedReasoning)
    || (Starts(s.sessionId, row) && ToolStatusOf(row) == InProgress && Concluded(s, row).Some?)
    || (!Starts(s.sessionId, row) && item.ended && row.stream.Some? && ConcludedCall(s, row.id, row.stream).Some?)
  }

  ghost predicate Clear(s: State, active: seq<Row>, open: Option<set<string>>, loop: nat, n: nat)
    requires n <= |active|
  {
    forall k: nat :: k < n && active[k].loopSeq == loop ==> !Marked(s, ItemAt(active, open, k))
  }

  /** The plan the loop's rows meet: what the translator keeps of it, or none when it translates an earlier loop first. */
  ghost function KeptBoard(s: State, active: seq<Row>, selected: seq<nat>, loop: nat): Board {
    if exists i: nat :: i < |active| && Before(s, active, selected, loop, i) then BLANK else BoardOf(s, loop)
  }

  /** What the loop's own rows among the first `n` make of a plan. */
  function BoardAt(b: Board, active: seq<Row>, loop: nat, sessionId: int, n: nat): Board
    requires n <= |active|
  {
    if n == 0 then b
    else
      var before := BoardAt(b, active, loop, sessionId, n - 1);
      if active[n - 1].loopSeq == loop && PlansIn(sessionId, active[n - 1]) then BoardNext(before, active[n - 1]) else before
  }

  /** No completed todo or kill of the loop can tell the plan from one that begins blank. */
  ghost predicate PlansMeet(b: Board, active: seq<Row>, loop: nat, sessionId: int) {
    forall k: nat :: k < |active| && active[k].loopSeq == loop && PlansIn(sessionId, active[k]) ==>
      Meets(BoardAt(b, active, loop, sessionId, k), BoardAt(BLANK, active, loop, sessionId, k), active[k])
  }

  predicate Before(s: State, active: seq<Row>, selected: seq<nat>, loop: nat, i: nat)
    requires i < |active|
  {
    active[i].loopSeq in selected && active[i].loopSeq < loop && active[i].sessionId == s.sessionId
  }

  // ----- where the translators stand at a row -----

  /** The rows delivered so far changed nothing a later row could meet, but its turn. */
  lemma {:induction false} StandingPasses(s: State, active: seq<Row>, open: Option<set<string>>, selected: seq<nat>,
      n: nat, k: nat)
    requires n <= k < |active| && WellKept(active)
    ensures var r, row := Standing(s, active, open, selected, n), active[k];
      && r.sessionId == s.sessionId && Concluded(r, row) == Concluded(s, row)
      && ConcludedCall(r, row.id, row.stream) == ConcludedCall(s, row.id, row.stream)
    decreases n
  {
    if n > 0 {
      StandingPasses(s, active, open, selected, n - 1, k);
      var before := Standing(s, active, open, selected, n - 1);
      assert Unlike(active[n - 1], active[k]);
      DeliveryPasses(before, ItemAt(active, open, n - 1), active[k]);
      DeliveryTouches(before, ItemAt(active, open, n - 1));
    }
  }

  ghost predicate ThoughtBefore(sessionId: int, active: seq<Row>, selected: seq<nat>, n: nat, turnId: int)
    requires n <= |active|
  {
    exists i: nat :: i < n && active[i].loopSeq in selected && Thinks(sessionId, active[i]) && active[i].turnId == turnId
  }

  lemma {:induction false} StandingThinks(s: State, active: seq<Row>, open: Option<set<string>>, selected: seq<nat>,
      n: nat, turnId: int)
    requires n <= |active|
    ensures Standing(s, active, open, selected, n).sessionId == s.sessionId
    ensures turnId in Standing(s, active, open, selected, n).streamedReasoning
        <==> turnId in s.streamedReasoning || ThoughtBefore(s.sessionId, active, selected, n, turnId)
    decreases n
  {
    if n > 0 {
      StandingThinks(s, active, open, selected, n - 1, turnId);
      DeliveryTouches(Standing(s, active, open, selected, n - 1), ItemAt(active, open, n - 1));
      assert ThoughtBefore(s.sessionId, active, selected, n, turnId) <==>
        ThoughtBefore(s.sessionId, active, selected, n - 1, turnId)
        || (active[n - 1].loopSeq in selected && Thinks(s.sessionId, active[n - 1]) && active[n - 1].turnId == turnId);
    }
  }

  /** A row that is not marked cannot tell where the two translators stand apart. */
  lemma AlikeAt(s: State, active: seq<Row>, open: Option<set<string>>, selected: seq<nat>, k: nat, loop: nat)
    requires k < |active| && WellKept(active) && loop in selected && active[k].loopSeq == loop
    requires !Marked(s, ItemAt(active, open, k))
    ensures Alike(Standing(s, active, open, selected, k), Standing(Fresh(s.sessionId), active, open, [loop], k), ItemAt(active, open, k))
  {
    var t, row := Fresh(s.sessionId), active[k];
    StandingPasses(s, active, open, selected, k, k);
    StandingPasses(t, active, open, [loop], k, k);
    StandingThinks(s, active, open, selected, k, row.turnId);
    StandingThinks(t, active, open, [loop], k, row.turnId);
    SameThinkers(s.sessionId, active, selected, k, loop);
    assert Concluded(t, row) == None && ConcludedCall(t, row.id, row.stream) == None;
  }

  lemma SameThinkers(sessionId: int, active: seq<Row>, selected: seq<nat>, k: nat, loop: nat)
    requires k < |active| && WellKept(active) && loop in selected && active[k].loopSeq == loop
    ensures ThoughtBefore(sessionId, active, selected, k, active[k].turnId) <==> ThoughtBefore(sessionId, active, [loop], k, active[k].turnId)
  {
    assert forall i: nat :: i < k && active[i].turnId == active[k].turnId ==> OneLoopPerTurn(active[i], active[k]);
  }

  /** A row of another loop leaves no plan of this one. */
  lemma EarlierBoard(s: State, item: Item, loop: nat)
    requires item.row.loopSeq != loop
    ensures var r := Deliver(s, item).state;
      && r.sessionId == s.sessionId
      && BoardOf(r, loop) == if item.row.sessionId == s.sessionId then BLANK else BoardOf(s, loop)
  {
    DeliveryTouches(s, item);
  }

  /** Before the loop's first row. */
  lemma {:induction false} BoardBefore(s: State, active: seq<Row>, open: Option<set<string>>, selected: seq<nat>,
      n: nat, loop: nat)
    requires n <= |active| && forall i: nat :: i < n ==> active[i].loopSeq < loop
    ensures Standing(s, active, open, selected, n).sessionId == s.sessionId
    ensures BoardOf(Standing(s, active, open, selected, n), loop)
         == if exists i: nat :: i < n && Before(s, active, selected, loop, i) then BLANK else BoardOf(s, loop)
    decreases n
  {
    if n > 0 {
      BoardBefore(s, active, open, selected, n - 1, loop);
      EarlierBoard(Standing(s, active, open, selected, n - 1), ItemAt(active, open, n - 1), loop);
      assert Before(s, active, selected, loop, n - 1) <==> active[n - 1].loopSeq in selected && active[n - 1].sessionId == s.sessionId;
    }
  }

  lemma {:induction false} NoOwnRowYet(b: Board, active: seq<Row>, loop: nat, sessionId: int, n: nat)
    requires n <= |active| && forall i: nat :: i < n ==> active[i].loopSeq != loop
    ensures BoardAt(b, active, loop, sessionId, n) == b
    decreases n
  {
    if n > 0 {
      NoOwnRowYet(b, active, loop, sessionId, n - 1);
    }
  }

  /** Rows before the loop's first are those of earlier loops, and all of those. */
  lemma EarlierFirst(active: seq<Row>, k: nat, loop: nat)
    requires k < |active| && InOrder(active) && active[k].loopSeq == loop && (k == 0 || active[k - 1].loopSeq != loop)
    ensures forall i: nat :: i < |active| ==> (i < k <==> active[i].loopSeq < loop)
  {
    forall i: nat | i < k ensures active[i].loopSeq < loop {
      assert !Precedes(active[k - 1], active[i]) || i == k - 1;
      assert !Precedes(active[k], active[k - 1]);
    }
    assert forall i: nat :: k < i < |active| ==> !Precedes(active[i], active[k]);
  }

  /** The plan a row of the loop meets, as long as none before it is marked. */
  lemma {:induction false} BoardAtRow(s: State, active: seq<Row>, open: Option<set<string>>, selected: seq<nat>,
      k: nat, loop: nat)
    requires k < |active| && InOrder(active) && WellKept(active) && loop in selected && active[k].loopSeq == loop
    requires Clear(s, active, open, loop, k)
    ensures BoardOf(Standing(s, active, open, selected, k), loop)
         == BoardAt(KeptBoard(s, active, selected, loop), active, loop, s.sessionId, k)
    decreases k
  {
    if k > 0 && active[k - 1].loopSeq == loop {
      BoardAtRow(s, active, open, selected, k - 1, loop);
      StandingPasses(s, active, open, selected, k - 1, k - 1);
      DeliveryPlans(Standing(s, active, open, selected, k - 1), ItemAt(active, open, k - 1));
    } else {
      EarlierFirst(active, k, loop);
      BoardBefore(s, active, open, selected, k, loop);
      NoOwnRowYet(KeptBoard(s, active, selected, loop), active, loop, s.sessionId, k);
    }
  }

  lemma FreshIsBlank(sessionId: int, active: seq<Row>, selected: seq<nat>, loop: nat)
    ensures KeptBoard(Fresh(sessionId), active, selected, loop) == BLANK
  {
  }

  lemma BoardGoesOn(b: Board, active: seq<Row>, loop: nat, sessionId: int, n: nat)
    requires n < |active| && active[n].loopSeq == loop && PlansIn(sessionId, active[n])
    ensures BoardAt(b, active, loop, sessionId, n + 1) == BoardNext(BoardAt(b, active, loop, sessionId, n), active[n])
  {
  }

  lemma {:induction false} RelatedAt(b: Board, active: seq<Row>, loop: nat, sessionId: int, n: nat)
    requires n <= |active| && PlansMeet(b, active, loop, sessionId)
    ensures Related(BoardAt(b, active, loop, sessionId, n), BoardAt(BLANK, active, loop, sessionId, n))
    decreases n
  {
    if n > 0 {
      RelatedAt(b, active, loop, sessionId, n - 1);
      var p, q := BoardAt(b, active, loop, sessionId, n - 1), BoardAt(BLANK, active, loop, sessionId, n - 1);
      if active[n - 1].loopSeq == loop && PlansIn(sessionId, active[n - 1]) {
        assert Meets(p, q, active[n - 1]);
        MeetsShows(p, q, active[n - 1]);
        BoardGoesOn(b, active, loop, sessionId, n - 1);
        BoardGoesOn(BLANK, active, loop, sessionId, n - 1);
      } else {
        assert BoardAt(b, active, loop, sessionId, n) == p && BoardAt(BLANK, active, loop, sessionId, n) == q;
      }
    }
  }

  /** A row that is not marked and tells no plans apart shows the same to both. */
  lemma RowFollows(s: State, active: seq<Row>, open: Option<set<string>>, selected: seq<nat>, k: nat, loop: nat)
    requires k < |active| && InOrder(active) && WellKept(active) && loop in selected && active[k].loopSeq == loop
    requires Clear(s, active, open, loop, k + 1) && PlansMeet(KeptBoard(s, active, selected, loop), active, loop, s.sessionId)
    ensures Deliver(Standing(s, active, open, selected, k), ItemAt(active, open, k)).updates
         == Deliver(Standing(Fresh(s.sessionId), active, open, [loop], k), ItemAt(active, open, k)).updates
  {
    var t, kept := Fresh(s.sessionId), KeptBoard(s, active, selected, loop);
    var a, b := Standing(s, active, open, selected, k), Standing(t, active, open, [loop], k);
    AlikeAt(s, active, open, selected, k, loop);
    StandingPasses(s, active, open, selected, k, k);
    StandingPasses(t, active, open, [loop], k, k);
    BoardAtRow(s, active, open, selected, k, loop);
    BoardAtRow(t, active, open, [loop], k, loop);
    FreshIsBlank(s.sessionId, active, [loop], loop);
    RelatedAt(kept, active, loop, s.sessionId, k);
    if PlansIn(s.sessionId, active[k]) {
      MeetsShows(BoardAt(kept, active, loop, s.sessionId, k), BoardAt(BLANK, active, loop, s.sessionId, k), active[k]);
    }
    DeliversAlike(a, b, ItemAt(active, open, k));
  }

  lemma {:induction false} SharesFollow(s: State, active: seq<Row>, open: Option<set<string>>, selected: seq<nat>,
      n: nat, loop: nat)
    requires n <= |active| && InOrder(active) && WellKept(active) && loop in selected
    requires Clear(s, active, open, loop, n) && PlansMeet(KeptBoard(s, active, selected, loop), active, loop, s.sessionId)
    ensures Share(s, active, open, selected, n, loop) == Share(Fresh(s.sessionId), active, open, [loop], n, loop)
    decreases n
  {
    if n > 0 {
      SharesFollow(s, active, open, selected, n - 1, loop);
      if active[n - 1].loopSeq == loop {
        RowFollows(s, active, open, selected, n - 1, loop);
      }
    }
  }

  // ----- a marked row shows -----

  /** What row `k` shows the translator's client. */
  function Shown(s: State, active: seq<Row>, open: Option<set<string>>, selected: seq<nat>, k: nat): seq<Update>
    requires k < |active|
  {
    Deliver(Standing(s, active, open, selected, k), ItemAt(active, open, k)).updates
  }

  /** What each row shows for a loop. */
  function Pieces(s: State, active: seq<Row>, open: Option<set<string>>, selected: seq<nat>, loop: nat): seq<seq<Update>> {
    seq(|active|, k requires 0 <= k < |active| => if active[k].loopSeq == loop then Shown(s, active, open, selected, k) else [])
  }

  function Joined(pieces: seq<seq<Update>>): seq<Update> {
    if pieces == [] then [] else Joined(pieces[..|pieces| - 1]) + pieces[|pieces| - 1]
  }

  lemma ShareIsJoined(s: State, active: seq<Row>, open: Option<set<string>>, selected: seq<nat>, loop: nat)
    ensures Share(s, active, open, selected, |active|, loop) == Joined(Pieces(s, active, open, selected, loop))
  {
    var pieces := Pieces(s, active, open, selected, loop);
    JoinsTo(s, active, open, selected, loop, |active|, pieces);
    assert pieces[..|active|] == pieces;
  }

  lemma {:induction false} JoinsTo(s: State, active: seq<Row>, open: Option<set<string>>, selected: seq<nat>,
      loop: nat, n: nat, pieces: seq<seq<Update>>)
    requires n <= |active| && pieces == Pieces(s, active, open, selected, loop)
    ensures Share(s, active, open, selected, n, loop) == Joined(pieces[..n])
    decreases n
  {
    if n > 0 {
      JoinsTo(s, active, open, selected, loop, n - 1, pieces);
      JoinsNext(pieces, n - 1);
      ShareNext(s, active, open, selected, loop, n - 1, pieces);
    }
  }

  lemma ShareNext(s: State, active: seq<Row>, open: Option<set<string>>, selected: seq<nat>, loop: nat, n: nat,
      pieces: seq<seq<Update>>)
    requires n < |active| && pieces == Pieces(s, active, open, selected, loop)
    ensures Share(s, active, open, selected, n + 1, loop) == Share(s, active, open, selected, n, loop) + pieces[n]
  {
  }

  lemma JoinsNext(pieces: seq<seq<Update>>, n: nat)
    requires n < |pieces|
    ensures Joined(pieces[..n + 1]) == Joined(pieces[..n]) + pieces[n]
  {
    assert pieces[..n + 1][..n] == pieces[..n];
  }

  lemma {:induction false} InJoined(pieces: seq<seq<Update>>, u: Update)
    ensures u in Joined(pieces) <==> exists k: nat :: k < |pieces| && u in pieces[k]
    decreases |pieces|
  {
    if pieces != [] {
      var init, last := pieces[..|pieces| - 1], pieces[|pieces| - 1];
      InJoined(init, u);
      assert forall k: nat :: k < |pieces| ==> pieces[k] == if k < |init| then init[k] else last;
      if u in last {
        assert u in pieces[|init|];
      }
      if k: nat :| k < |init| && u in init[k] {
        assert u in pieces[k];
      }
    }
  }

  lemma {:induction false} CallsOfJoined(pieces: seq<seq<Update>>, k: nat, id: int)
    requires k < |pieces| && forall i: nat :: i < |pieces| && i != k ==> CallsOf(pieces[i], id) == 0
    ensures CallsOf(Joined(pieces), id) == CallsOf(pieces[k], id)
    decreases |pieces|
  {
    var init, last := pieces[..|pieces| - 1], pieces[|pieces| - 1];
    assert forall i: nat :: i < |init| ==> init[i] == pieces[i];
    CallsOfJoin(Joined(init), last, id);
    if k < |init| {
      CallsOfJoined(init, k, id);
    } else {
      NoCallsJoined(init, id);
    }
  }

  lemma {:induction false} NoCallsJoined(pieces: seq<seq<Update>>, id: int)
    requires forall i: nat :: i < |pieces| ==> CallsOf(pieces[i], id) == 0
    ensures CallsOf(Joined(pieces), id) == 0
    decreases |pieces|
  {
    if pieces != [] {
      CallsOfJoin(Joined(pieces[..|pieces| - 1]), pieces[|pieces| - 1], id);
      NoCallsJoined(pieces[..|pieces| - 1], id);
    }
  }

  lemma NoThought(s: State, active: seq<Row>, open: Option<set<string>>, selected: seq<nat>, k: nat, turnId: int)
    requires k < |active| && turnId in s.streamedReasoning
    ensures Thought(turnId) !in Shown(s, active, open, selected, k)
  {
    StandingThinks(s, active, open, selected, k, turnId);
    DeliveryShows(Standing(s, active, open, selected, k), ItemAt(active, open, k));
  }

  /** A turn shown thinking before is not shown again. */
  lemma NeverThought(s: State, active: seq<Row>, open: Option<set<string>>, selected: seq<nat>, loop: nat, turnId: int)
    requires turnId in s.streamedReasoning
    ensures Thought(turnId) !in Joined(Pieces(s, active, open, selected, loop))
  {
    forall k: nat | k < |active| ensures Thought(turnId) !in Shown(s, active, open, selected, k) {
      NoThought(s, active, open, selected, k, turnId);
    }
    InJoined(Pieces(s, active, open, selected, loop), Thought(turnId));
  }

  /** A fresh translator shows a turn thinking at the first of its rows. */
  lemma {:induction false} ThoughtShown(sessionId: int, active: seq<Row>, open: Option<set<string>>, loop: nat, k: nat)
    requires k < |active| && active[k].loopSeq == loop && Thinks(sessionId, active[k])
    ensures Thought(active[k].turnId) in Joined(Pieces(Fresh(sessionId), active, open, [loop], loop))
    decreases k
  {
    var s, turnId := Fresh(sessionId), active[k].turnId;
    StandingThinks(s, active, open, [loop], k, turnId);
    if turnId in Standing(s, active, open, [loop], k).streamedReasoning {
      var i: nat :| i < k && active[i].loopSeq in [loop] && Thinks(sessionId, active[i]) && active[i].turnId == turnId;
      ThoughtShown(sessionId, active, open, loop, i);
    } else {
      DeliveryShows(Standing(s, active, open, [loop], k), ItemAt(active, open, k));
      var pieces := Pieces(s, active, open, [loop], loop);
      InJoined(pieces, Thought(turnId));
      assert Thought(turnId) in pieces[k];
    }
  }

  /** Only the row itself reports calls under its id. */
  lemma OtherCalls(s: State, active: seq<Row>, open: Option<set<string>>, selected: seq<nat>, i: nat, k: nat)
    requires i < |active| && k < |active| && i != k && WellKept(active)
    ensures forall u :: u in Shown(s, active, open, selected, i) && u.ToolCall? ==> u.entryId != active[k].id
    ensures CallsOf(Shown(s, active, open, selected, i), active[k].id) == 0
  {
    assert Unlike(active[if k < i then k else i], active[if k < i then i else k]);
    DeliveryShows(Standing(s, active, open, selected, i), ItemAt(active, open, i));
    NoCalls(Shown(s, active, open, selected, i), active[k].id);
  }

  lemma CallsOfShare(s: State, active: seq<Row>, open: Option<set<string>>, selected: seq<nat>, k: nat)
    requires k < |active| && WellKept(active)
    ensures var joined := Joined(Pieces(s, active, open, selected, active[k].loopSeq));
      && CallsOf(joined, active[k].id) == CallsOf(Shown(s, active, open, selected, k), active[k].id)
      && forall u: Update :: u.ToolCall? && u.entryId == active[k].id ==> (u in joined <==> u in Shown(s, active, open, selected, k))
  {
    var pieces := Pieces(s, active, open, selected, active[k].loopSeq);
    forall i: nat | i < |pieces| && i != k
      ensures CallsOf(pieces[i], active[k].id) == 0
      ensures forall u: Update :: u in pieces[i] && u.ToolCall? ==> u.entryId != active[k].id
    {
      OtherCalls(s, active, open, selected, i, k);
    }
    CallsOfJoined(pieces, k, active[k].id);
    forall u: Update | u.ToolCall? && u.entryId == active[k].id ensures u in Joined(pieces) <==> u in pieces[k] {
      InJoined(pieces, u);
    }
  }

  /** A marked row that is no repeated thought reports its calls differently. */
  lemma CallMarks(s: State, active: seq<Row>, open: Option<set<string>>, selected: seq<nat>, k: nat)
    requires k < |active| && WellKept(active) && Marked(s, ItemAt(active, open, k))
    requires !(Thinks(s.sessionId, active[k]) && active[k].turnId in s.streamedReasoning)
    ensures var row, loop, t := active[k], active[k].loopSeq, Fresh(s.sessionId);
      || CallsOf(Shown(s, active, open, selected, k), row.id) != CallsOf(Shown(t, active, open, [loop], k), row.id)
      || exists u: Update :: u.ToolCall? && u.entryId == row.id
           && u !in Shown(s, active, open, selected, k) && u in Shown(t, active, open, [loop], k)
  {
    var t, row, loop, item := Fresh(s.sessionId), active[k], active[k].loopSeq, ItemAt(active, open, k);
    var a, b := Standing(s, active, open, selected, k), Standing(t, active, open, [loop], k);
    StandingPasses(s, active, open, selected, k, k);
    StandingPasses(t, active, open, [loop], k, k);
    if Starts(s.sessionId, row) {
      DeliveryShows(a, item);
      DeliveryShows(b, item);
      var u :| u in Deliver(b, item).updates && u.ToolCall? && u.status == InProgress;
      assert u.entryId == row.id && u !in Deliver(a, item).updates;
    } else {
      CallReached(a, b, item);
    }
  }

  lemma MarkShows(s: State, active: seq<Row>, open: Option<set<string>>, selected: seq<nat>, k: nat)
    requires k < |active| && WellKept(active) && Marked(s, ItemAt(active, open, k))
    ensures Joined(Pieces(s, active, open, selected, active[k].loopSeq))
         != Joined(Pieces(Fresh(s.sessionId), active, open, [active[k].loopSeq], active[k].loopSeq))
  {
    if Thinks(s.sessionId, active[k]) && active[k].turnId in s.streamedReasoning {
      NeverThought(s, active, open, selected, active[k].loopSeq, active[k].turnId);
      ThoughtShown(s.sessionId, active, open, active[k].loopSeq, k);
    } else {
      CallMarks(s, active, open, selected, k);
      CallsOfShare(s, active, open, selected, k);
      CallsOfShare(Fresh(s.sessionId), active, open, [active[k].loopSeq], k);
    }
  }

  // ----- a plan told apart shows -----

  /** Only the row itself shows plans under its id. */
  lemma PlansOfShare(s: State, active: seq<Row>, open: Option<set<string>>, selected: seq<nat>, k: nat, u: Update)
    requires k < |active| && WellKept(active) && Planned(u, active[k].id)
    ensures u in Joined(Pieces(s, active, open, selected, active[k].loopSeq)) <==> u in Shown(s, active, open, selected, k)
  {
    var pieces := Pieces(s, active, open, selected, active[k].loopSeq);
    forall i: nat | i < |pieces| && i != k ensures u !in pieces[i] {
      assert Unlike(active[if k < i then k else i], active[if k < i then i else k]);
      DeliveryPlansOwn(Standing(s, active, open, selected, i), ItemAt(active, open, i));
    }
    InJoined(pieces, u);
    assert pieces[k] == Shown(s, active, open, selected, k);
  }

  lemma PlanShows(s: State, active: seq<Row>, open: Option<set<string>>, selected: seq<nat>, k: nat, loop: nat)
    requires k < |active| && InOrder(active) && WellKept(active) && loop in selected && active[k].loopSeq == loop
    requires Clear(s, active, open, loop, |active|) && PlansIn(s.sessionId, active[k])
    requires !Meets(BoardAt(KeptBoard(s, active, selected, loop), active, loop, s.sessionId, k),
                    BoardAt(BLANK, active, loop, s.sessionId, k), active[k])
    ensures Joined(Pieces(s, active, open, selected, loop)) != Joined(Pieces(Fresh(s.sessionId), active, open, [loop], loop))
  {
    var t, item := Fresh(s.sessionId), ItemAt(active, open, k);
    var kept, blank := BoardAt(KeptBoard(s, active, selected, loop), active, loop, s.sessionId, k),
                       BoardAt(BLANK, active, loop, s.sessionId, k);
    StandingPasses(s, active, open, selected, k, k);
    StandingPasses(t, active, open, [loop], k, k);
    BoardAtRow(s, active, open, selected, k, loop);
    BoardAtRow(t, active, open, [loop], k, loop);
    FreshIsBlank(s.sessionId, active, [loop], loop);
    NotMetShows(kept, blank, active[k]);
    var u :| Planned(u, active[k].id) && (u in BoardShows(kept, active[k])) != (u in BoardShows(blank, active[k]));
    DeliveryPlanned(Standing(s, active, open, selected, k), item, u);
    DeliveryPlanned(Standing(t, active, open, [loop], k), item, u);
    PlansOfShare(s, active, open, selected, k, u);
    PlansOfShare(t, active, open, [loop], k, u);
  }

  // ----- the share of a loop -----

  /** The loop's share is what a fresh translator shows of the loop by itself exactly when no row of it is marked and no todo
      or kill of it tells the plan it meets from a blank one. */
  lemma ShareExactly(s: State, active: seq<Row>, open: Option<set<string>>, selected: seq<nat>, loop: nat)
    requires InOrder(active) && WellKept(active) && loop in selected
    ensures Shares(s, active, open, selected)(loop) == ShownAlone(active, open, s.sessionId)(loop)
        <==> (Clear(s, active, open, loop, |active|)
              && PlansMeet(KeptBoard(s, active, selected, loop), active, loop, s.sessionId))
  {
    ShareIsJoined(s, active, open, selected, loop);
    ShareIsJoined(Fresh(s.sessionId), active, open, [loop], loop);
    if !Clear(s, active, open, loop, |active|) {
      var k: nat :| k < |active| && active[k].loopSeq == loop && Marked(s, ItemAt(active, open, k));
      MarkShows(s, active, open, selected, k);
    } else if !PlansMeet(KeptBoard(s, active, selected, loop), active, loop, s.sessionId) {
      var k := ToldApart(KeptBoard(s, active, selected, loop), active, loop, s.sessionId);
      PlanShows(s, active, open, selected, k, loop);
    } else {
      SharesFollow(s, active, open, selected, |active|, loop);
    }
  }

  lemma ToldApart(b: Board, active: seq<Row>, loop: nat, sessionId: int) returns (k: nat)
    requires !PlansMeet(b, active, loop, sessionId)
    ensures k < |active| && active[k].loopSeq == loop && PlansIn(sessionId, active[k])
    ensures !Meets(BoardAt(b, active, loop, sessionId, k), BoardAt(BLANK, active, loop, sessionId, k), active[k])
  {
    k :| k < |active| && active[k].loopSeq == loop && PlansIn(sessionId, active[k])
      && !Meets(BoardAt(b, active, loop, sessionId, k), BoardAt(BLANK, active, loop, sessionId, k), active[k]);
  }

  /** A blank plan is met as such. */
  lemma BlankMeets(active: seq<Row>, loop: nat, sessionId: int)
    ensures PlansMeet(BLANK, active, loop, sessionId)
  {
  }

  /** No state crosses a loop boundary: a fresh translator shows a loop as if it were alone, whichever others it replays. */
  lemma LoopStandsAlone(sessionId: int, active: seq<Row>, open: Option<set<string>>, selected: seq<nat>, loop: nat)
    requires InOrder(active) && WellKept(active) && loop in selected
    ensures Shares(Fresh(sessionId), active, open, selected)(loop) == ShownAlone(active, open, sessionId)(loop)
  {
    FreshIsBlank(sessionId, active, selected, loop);
    BlankMeets(active, loop, sessionId);
    ShareExactly(Fresh(sessionId), active, open, selected, loop);
  }

  // ----- without kills -----

  /** The position of the loop's first completed todo or kill, or of the end. */
  ghost predicate FirstPlan(active: seq<Row>, loop: nat, sessionId: int, k: nat) {
    && k <= |active| && (k < |active| ==> active[k].loopSeq == loop && PlansIn(sessionId, active[k]))
    && forall i: nat :: i < k && active[i].loopSeq == loop ==> !PlansIn(sessionId, active[i])
  }

  lemma {:induction false} UntilFirst(b: Board, active: seq<Row>, loop: nat, sessionId: int, k: nat, n: nat)
    requires FirstPlan(active, loop, sessionId, k) && n <= k
    ensures BoardAt(b, active, loop, sessionId, n) == b
    decreases n
  {
    if n > 0 {
      UntilFirst(b, active, loop, sessionId, k, n - 1);
    }
  }

  lemma {:induction false} SameHistory(b: Board, active: seq<Row>, loop: nat, sessionId: int, k: nat, n: nat)
    requires FirstPlan(active, loop, sessionId, k) && k < n <= |active|
    requires forall i: nat :: i < |active| && active[i].loopSeq == loop && PlansIn(sessionId, active[i]) ==> active[i].op == Some("todo")
    requires forall x :: x in b.history ==> x in active[k].items
    ensures BoardAt(b, active, loop, sessionId, n).history == BoardAt(BLANK, active, loop, sessionId, n).history
    decreases n
  {
    if n == k + 1 {
      UntilFirst(b, active, loop, sessionId, k, k);
      UntilFirst(BLANK, active, loop, sessionId, k, k);
      MergeFresh(b.history, active[k].items);
    } else {
      SameHistory(b, active, loop, sessionId, k, n - 1);
    }
  }

  /** A loop without kills tells its plan from a blank one exactly when its first todo leaves out something the plan lists. */
  lemma PlansMeetWithoutKills(b: Board, active: seq<Row>, loop: nat, sessionId: int, k: nat)
    requires FirstPlan(active, loop, sessionId, k)
    requires forall i: nat :: i < |active| && active[i].loopSeq == loop && PlansIn(sessionId, active[i]) ==> active[i].op == Some("todo")
    ensures PlansMeet(b, active, loop, sessionId) <==> (k < |active| ==> forall x :: x in b.history ==> x in active[k].items)
  {
    if k < |active| {
      UntilFirst(b, active, loop, sessionId, k, k);
      UntilFirst(BLANK, active, loop, sessionId, k, k);
      if forall x :: x in b.history ==> x in active[k].items {
        forall n: nat | n < |active| && active[n].loopSeq == loop && PlansIn(sessionId, active[n])
          ensures Meets(BoardAt(b, active, loop, sessionId, n), BoardAt(BLANK, active, loop, sessionId, n), active[n])
        {
          if n > k {
            SameHistory(b, active, loop, sessionId, k, n);
          }
        }
      } else {
        assert !Meets(BoardAt(b, active, loop, sessionId, k), BoardAt(BLANK, active, loop, sessionId, k), active[k]);
      }
    }
  }

  // ----- a page -----

  lemma {:induction false} ConcatAlike(page: seq<nat>, show: nat -> seq<Update>, alone: nat -> seq<Update>)
    requires forall loop: nat :: loop in page ==> show(loop) == alone(loop)
    ensures Concat(page, show) == Concat(page, alone)
    decreases |page|
  {
    if page != [] {
      assert page[0] in page && forall loop: nat :: loop in page[1..] ==> loop in page;
      ConcatAlike(page[1..], show, alone);
    }
  }

  lemma {:induction false} TotalAlike(loops: seq<nat>, a: Sizes, b: Sizes)
    requires forall loop: nat :: loop in loops ==> a(loop) == b(loop)
    ensures Total(loops, a) == Total(loops, b)
    decreases |loops|
  {
    if loops != [] {
      assert loops[0] in loops && forall loop: nat :: loop in loops[1..] ==> loop in loops;
      TotalAlike(loops[1..], a, b);
    }
  }

  lemma {:induction false} FitsAlike(loops: seq<nat>, a: Sizes, b: Sizes, budget: int)
    requires forall loop: nat :: loop in loops ==> a(loop) == b(loop)
    ensures DropOldest(loops, a, budget) == DropOldest(loops, b, budget)
    ensures DropNewest(loops, a, budget) == DropNewest(loops, b, budget)
    decreases |loops|
  {
    TotalAlike(loops, a, b);
    if |loops| > 1 {
      assert forall loop: nat :: loop in loops[1..] || loop in loops[..|loops| - 1] ==> loop in loops;
      FitsAlike(loops[1..], a, b, budget);
      FitsAlike(loops[..|loops| - 1], a, b, budget);
    }
  }

  /** A page replayed through any translator is that of a fresh one that shows each loop by itself, when no row of the loops
      it may show is marked or tells plans apart. */
  lemma PageIsAlone(s: State, active: seq<Row>, options: Options, size: seq<Update> -> nat)
    requires InOrder(active) && WellKept(active)
    requires forall loop: nat :: loop in Selected(active, options) ==>
      Clear(s, active, options.openStreamTargets, loop, |active|)
      && PlansMeet(KeptBoard(s, active, Selected(active, options), loop), active, loop, s.sessionId)
    ensures PageOf(active, options, Shares(s, active, options.openStreamTargets, Selected(active, options)), size)
         == PageOf(active, options, ShownAlone(active, options.openStreamTargets, s.sessionId), size)
  {
    var open, window := options.openStreamTargets, Selected(active, options);
    var show, alone := Shares(s, active, open, window), ShownAlone(active, open, s.sessionId);
    forall loop: nat | loop in window ensures show(loop) == alone(loop) {
      ShareExactly(s, active, open, window, loop);
    }
    SamePage(active, options, show, alone, size);
  }

  lemma SamePage(active: seq<Row>, options: Options, show: nat -> seq<Update>, alone: nat -> seq<Update>,
      size: seq<Update> -> nat)
    requires forall loop: nat :: loop in Selected(active, options) ==> show(loop) == alone(loop)
    ensures PageOf(active, options, show, size) == PageOf(active, options, alone, size)
  {
    var window, limits := Selected(active, options), options.limits;
    var a, b := SizesOf(show, size), SizesOf(alone, size);
    if Limited(limits.historyPageChars) {
      FitsAlike(window, a, b, limits.historyPageChars.value);
    }
    FittedLies(window, options.cursor, limits, a);
    ConcatAlike(Fitted(window, options.cursor, limits, a), show, alone);
  }

  /** A page replayed through a new translator shows each loop by itself. */
  lemma FreshPage(sessionId: int, rows: seq<Row>, options: Options, size: seq<Update> -> nat)
    requires WellKept(Active(rows))
    ensures var active, open := Active(rows), options.openStreamTargets;
      PageOf(active, options, Shares(Fresh(sessionId), active, open, Selected(active, options)), size)
        == PageOf(active, options, ShownAlone(active, open, sessionId), size)
  {
    var active := Active(rows);
    ActiveKeeps(rows);
    forall loop: nat ensures PlansMeet(KeptBoard(Fresh(sessionId), active, Selected(active, options), loop), active, loop, sessionId) {
      FreshIsBlank(sessionId, active, Selected(active, options), loop);
      BlankMeets(active, loop, sessionId);
    }
    PageIsAlone(Fresh(sessionId), active, options, size);
  }

  // ----- after live traffic -----

  predicate SameStream(a: Option<string>, b: Option<string>) {
    Address(a).Some? && Address(a) == Address(b)
  }

  /** The event leaves a mark on the row: it showed the row's turn thinking, ended its stream, or named a call by the id or
      the stream of a row that is no call. */
  predicate Marks(sessionId: int, e: Streams.Event, item: Item) {
    var row := item.row;
    match e
    case Entry(other) =>
      || (Thinks(sessionId, row) && Thinks(sessionId, other) && other.turnId == row.turnId)
      || (Starts(sessionId, other) && !Starts(sessionId, row) && item.ended && row.stream.Some?
          && (other.id == row.id || SameStream(other.stream, row.stream)))
    case End(entryId, target, _) =>
      Starts(sessionId, row) && ToolStatusOf(row) == InProgress && (entryId == row.id || SameStream(target, row.stream))
    case Thinking(session, turnId, content) =>
      session == sessionId && content && Thinks(sessionId, row) && turnId == row.turnId
  }

  lemma EntryMarks(s: State, r: State, other: Row, item: Item)
    requires var named := if Starts(s.sessionId, other) then NameCall(s, other) else s;
      && r.sessionId == s.sessionId && r.concludedByEntry == s.concludedByEntry && r.concludedByTarget == s.concludedByTarget
      && r.toolCallByEntry == named.toolCallByEntry && r.toolCallByTarget == named.toolCallByTarget
      && r.streamedReasoning == s.streamedReasoning + (if Thinks(s.sessionId, other) then {other.turnId} else {})
    ensures Marked(r, item) <==> Marked(s, item) || Marks(s.sessionId, Streams.Entry(other), item)
  {
  }

  lemma MarkedNext(s: State, e: Streams.Event, item: Item)
    ensures Marked(Streams.Step(s, e).state, item) <==> Marked(s, item) || Marks(s.sessionId, e, item)
  {
    match e {
      case Entry(other) =>
        EntryTouches(s, other);
        EntryMarks(s, LogEntry(s, other).state, other, item);
      case End(entryId, target, status) => EndMarks(s, entryId, target, status, item);
      case Thinking(sessionId, turnId, content) =>
        assert Concluded(Streams.Step(s, e).state, item.row) == Concluded(s, item.row);
    }
  }

  lemma EndMarks(s: State, entryId: int, target: Option<string>, status: int, item: Item)
    ensures Marked(TerminalConcluded(s, entryId, target, status).state, item)
        <==> Marked(s, item) || Marks(s.sessionId, Streams.End(entryId, target, status), item)
  {
    var r := TerminalConcluded(s, entryId, target, status).state;
    assert Concluded(r, item.row).Some?
      <==> Concluded(s, item.row).Some? || entryId == item.row.id || SameStream(target, item.row.stream);
    assert ConcludedCall(r, item.row.id, item.row.stream) == ConcludedCall(s, item.row.id, item.row.stream);
  }

  lemma {:induction false} RunStays(sessionId: int, events: seq<Streams.Event>)
    ensures Streams.Run(Fresh(sessionId), events).state.sessionId == sessionId
    decreases |events|
  {
    if events != [] {
      RunStays(sessionId, events[..|events| - 1]);
      var s, last := Streams.Run(Fresh(sessionId), events[..|events| - 1]).state, events[|events| - 1];
      if last.Entry? {
        EntryTouches(s, last.row);
      }
    }
  }

  lemma {:induction false} MarkedByRun(sessionId: int, events: seq<Streams.Event>, item: Item)
    ensures Marked(Streams.Run(Fresh(sessionId), events).state, item) <==> exists e :: e in events && Marks(sessionId, e, item)
    decreases |events|
  {
    if events != [] {
      var init, last := events[..|events| - 1], events[|events| - 1];
      assert events == init + [last];
      RunStays(sessionId, init);
      MarkedByRun(sessionId, init, item);
      MarkedNext(Streams.Run(Fresh(sessionId), init).state, last, item);
    }
  }

  /** No event of the traffic marked a row of the loop. */
  ghost predicate Unmarked(sessionId: int, events: seq<Streams.Event>, active: seq<Row>, open: Option<set<string>>, loop: nat) {
    forall e, k: nat :: e in events && k < |active| && active[k].loopSeq == loop ==> !Marks(sessionId, e, ItemAt(active, open, k))
  }

  /** After any live traffic the loop is replayed as a fresh translator shows it by itself exactly when no event of that
      traffic marked one of its rows and no todo or kill of it tells the plan the traffic left from a blank one. */
  lemma LiveReplayExactly(sessionId: int, events: seq<Streams.Event>, active: seq<Row>, open: Option<set<string>>,
      selected: seq<nat>, loop: nat)
    requires InOrder(active) && WellKept(active) && loop in selected
    ensures var s := Streams.Run(Fresh(sessionId), events).state;
      Shares(s, active, open, selected)(loop) == ShownAlone(active, open, sessionId)(loop) <==>
        (Unmarked(sessionId, events, active, open, loop)
         && PlansMeet(KeptBoard(s, active, selected, loop), active, loop, sessionId))
  {
    var s := Streams.Run(Fresh(sessionId), events).state;
    forall k: nat | k < |active|
      ensures Marked(s, ItemAt(active, open, k)) <==> exists e :: e in events && Marks(sessionId, e, ItemAt(active, open, k))
    {
      MarkedByRun(sessionId, events, ItemAt(active, open, k));
    }
    RunStays(sessionId, events);
    ShareExactly(s, active, open, selected, loop);
  }

  // ----- two replays that differ -----

  lemma RunOne(s: State, e: Streams.Event)
    ensures Streams.Run(s, [e]).state == Streams.Step(s, e).state
  {
    assert [e][..0] == [];
  }

  /** The row, translated as it happened and then replayed by the same translator, is not shown as a fresh one shows it. */
  ghost predicate ReplayDiffers(row: Row) {
    var s := Streams.Run(Fresh(row.sessionId), [Streams.Entry(row)]).state;
    && !row.inherited
    && Shares(s, [row], None, [row.loopSeq])(row.loopSeq) != ShownAlone([row], None, row.sessionId)(row.loopSeq)
  }

  /** It happens: reasoning is not shown again. */
  lemma ThoughtIsLost()
    ensures exists row: Row :: ReplayDiffers(row)
  {
    var row := Row(10, 7, 1, 1, 1, 3, Some("sh"), OtherState, 200, None, true, false, None, false, false, [], None, false, None);
    var events := [Streams.Entry(row)];
    assert events[0] in events && Marks(7, events[0], ItemAt([row], None, 0));
    LiveReplayExactly(7, events, [row], None, [1], 1);
    assert ReplayDiffers(row);
  }

  function Todo(id: int, sequence: nat, item: string): Row {
    Row(id, 7, 1, 1, sequence, 3, Some("todo"), OtherState, 200, None, false, false, None, false, false, [item], None, false, None)
  }

  lemma TodoLists(s: State, row: Row, item: string)
    requires row == Todo(row.id, row.sequence, item) && s.sessionId == 7
    ensures BoardOf(LogEntry(s, row).state, 1).history == MergeTodo(BoardOf(s, 1).history, [item])
    ensures LogEntry(s, row).state.sessionId == 7
  {
    EntryPlans(s, row);
    EntryTouches(s, row);
  }

  lemma MergesTodos()
    ensures MergeTodo([], ["x"]) == ["x"] && MergeTodo(["x"], ["y"]) == ["x", "y"]
  {
    assert ["x"][1..] == [] && ["y"][1..] == [];
    assert Without(["x"], ["y"]) == ["x"];
    assert AppendNew(["x", "y"], []) == ["x", "y"] && ["x"] + ["y"] == ["x", "y"];
  }

  /** No event marked a row of the loop, yet it is not shown as a fresh translator shows it. */
  ghost predicate PlanDiffers(a: Row, b: Row) {
    var events := [Streams.Entry(a), Streams.Entry(b)];
    && Unmarked(a.sessionId, events, [a, b], None, a.loopSeq)
    && Shares(Streams.Run(Fresh(a.sessionId), events).state, [a, b], None, [a.loopSeq])(a.loopSeq)
         != ShownAlone([a, b], None, a.sessionId)(a.loopSeq)
  }

  /** It happens: of two todos of the translator's present loop, the first shows a plan that already lists the second. */
  lemma PlanIsKept()
    ensures exists a: Row, b: Row :: PlanDiffers(a, b)
  {
    var a, b := Todo(1, 1, "x"), Todo(2, 2, "y");
    var active, events := [a, b], [Streams.Entry(a), Streams.Entry(b)];
    var s := Streams.Run(Fresh(7), events).state;
    TodoRun(a, b);
    TodoLists(Fresh(7), a, "x");
    TodoLists(LogEntry(Fresh(7), a).state, b, "y");
    MergesTodos();
    var kept := KeptBoard(s, active, [1], 1);
    assert kept == BoardOf(s, 1);
    FirstTodo(a, b);
    PlansMeetWithoutKills(kept, active, 1, 7, 0);
    assert kept.history[1] == "y" && "y" in kept.history && "y" !in a.items;
    LiveReplayExactly(7, events, active, None, [1], 1);
    assert PlanDiffers(a, b);
  }

  lemma FirstTodo(a: Row, b: Row)
    requires a == Todo(1, 1, "x") && b == Todo(2, 2, "y")
    ensures InOrder([a, b]) && WellKept([a, b]) && FirstPlan([a, b], 1, 7, 0)
    ensures Unmarked(7, [Streams.Entry(a), Streams.Entry(b)], [a, b], None, 1)
    ensures forall i: nat :: i < 2 && PlansIn(7, [a, b][i]) ==> [a, b][i].op == Some("todo")
  {
  }

  lemma TodoRun(a: Row, b: Row)
    ensures Streams.Run(Fresh(7), [Streams.Entry(a), Streams.Entry(b)]).state == LogEntry(LogEntry(Fresh(7), a).state, b).state
  {
    var events := [Streams.Entry(a), Streams.Entry(b)];
    assert events[..1] == [Streams.Entry(a)];
    RunOne(Fresh(7), Streams.Entry(a));
  }
}
