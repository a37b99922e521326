/** The plan of a loop as its todo and kill rows leave it, and when two plans show the same
    (plurnk-acp/src/SessionTranslator.ts). */
module TranslatorPlans {

  import opened Optional
  import opened Sequences
  import opened Translator

  /** What a loop's plan lists and the rows whose plans are not yet removed. */
  datatype Board = Board(history: seq<string>, plans: set<CallId>)

  const BLANK := Board([], {})

  /** A completed todo or kill. */
  predicate Plans(row: Row) {
    StartsCall(row) && ToolStatusOf(row) == Completed && (row.op == Some("todo") || row.op == Some("kill"))
  }

  predicate Kills(row: Row, c: CallId) {
    row.killed.Some? && Covers(row.killed.value, c)
  }

  function Killed(b: Board, row: Row): set<CallId> {
    set c | c in b.plans && Kills(row, c)
  }

  function BoardNext(b: Board, row: Row): Board {
    if row.op == Some("todo") then
      var history := MergeTodo(b.history, row.items);
      Board(history, if history == [] then b.plans else b.plans + {Coordinate(row)})
    else
      var left := b.plans - Killed(b, row);
      if Killed(b, row) == {} then b else Board(if left == {} then [] else b.history, left)
  }

  function BoardShows(b: Board, row: Row): seq<Update> {
    if row.op == Some("todo") then
      var history := MergeTodo(b.history, row.items);
      if history == [] then [] else [Plan(row.id, history, set item | item in row.items)]
    else if Killed(b, row) == {} then [] else [PlanRemoved(row.id)]
  }

  // ----- the translator's plan -----

  function BoardIn(s: State): Board {
    Board(s.todoHistory, s.plans)
  }

  lemma TodoIs(s: State, row: Row)
    requires row.op == Some("todo")
    ensures BoardIn(ShowPlan(s, row).state) == BoardNext(BoardIn(s), row)
    ensures ShowPlan(s, row).updates == BoardShows(BoardIn(s), row)
  {
  }

  lemma KillIs(s: State, row: Row)
    requires row.op != Some("todo")
    ensures BoardIn(RemovePlans(s, row).state) == BoardNext(BoardIn(s), row)
    ensures RemovePlans(s, row).updates == BoardShows(BoardIn(s), row)
  {
    if row.killed.None? {
      assert Killed(BoardIn(s), row) == {};
    } else {
      assert Killed(BoardIn(s), row) == set c | c in s.plans && Covers(row.killed.value, c);
    }
  }

  /** A call whose status is the row's own changes the plan exactly when the row is a completed todo or kill. */
  lemma CallPlans(s: State, row: Row)
    requires StartsCall(row) && CallStatus(s, row) == ToolStatusOf(row)
    ensures Call(s, row).updates == CallUpdates(s, row) + if Plans(row) then BoardShows(BoardIn(s), row) else []
    ensures BoardIn(Call(s, row).state) == if Plans(row) then BoardNext(BoardIn(s), row) else BoardIn(s)
  {
    var named := NameCall(s, row);
    assert BoardIn(named) == BoardIn(s);
    if row.op == Some("todo") {
      TodoIs(named, row);
    } else {
      KillIs(named, row);
    }
  }

  // ----- two plans -----

  lemma {:induction false} AppendHolds(history: seq<string>, items: seq<string>)
    ensures forall x :: x in AppendNew(history, items) <==> x in history || x in items
    decreases |items|
  {
    if items != [] {
      AppendHolds(if items[0] in history then history else history + [items[0]], items[1..]);
      assert forall x :: x in items <==> x == items[0] || x in items[1..];
    }
  }

  lemma EmptyOrSome(items: seq<string>)
    ensures items == [] || exists x :: x in items
  {
    assert items == [] || items[0] in items;
  }

  /** A merge shows no trace of the history before exactly when the todo names all of it. */
  lemma MergeFresh(history: seq<string>, items: seq<string>)
    ensures MergeTodo(history, items) == MergeTodo([], items) <==> forall x :: x in history ==> x in items
    ensures (exists x :: x in history && x !in items) ==> MergeTodo(history, items) != []
  {
    WithoutKeeps(history, items);
    WithoutKeeps([], items);
    AppendHolds(Without(history, items), items);
    AppendHolds(Without([], items), items);
    if forall x :: x in history ==> x in items {
      EmptyOrSome(Without(history, items));
    } else {
      var x :| x in history && x !in items;
      assert x in MergeTodo(history, items) && x !in MergeTodo([], items);
    }
  }

  /** The row cannot tell the kept plan from the one that began blank: a todo met with nothing listed there names all that is
      listed here, a kill removes plans of both or of neither. */
  predicate Meets(kept: Board, blank: Board, row: Row) {
    if row.op == Some("todo") then blank.history == [] ==> forall x :: x in kept.history ==> x in row.items
    else (exists c :: c in kept.plans && Kills(row, c)) <==> exists c :: c in blank.plans && Kills(row, c)
  }

  /** How the kept plan stands to the other as long as no row told them apart. */
  predicate Related(kept: Board, blank: Board) {
    blank.plans <= kept.plans && (blank.history == kept.history || blank.history == [])
  }

  lemma KillsExactly(b: Board, row: Row)
    ensures Killed(b, row) == {} <==> !exists c :: c in b.plans && Kills(row, c)
  {
    assert forall c :: c in Killed(b, row) <==> c in b.plans && Kills(row, c);
  }

  lemma MeetsShows(kept: Board, blank: Board, row: Row)
    requires Related(kept, blank) && Meets(kept, blank, row)
    ensures BoardShows(kept, row) == BoardShows(blank, row)
    ensures Related(BoardNext(kept, row), BoardNext(blank, row))
  {
    if row.op == Some("todo") {
      MergeFresh(kept.history, row.items);
    } else {
      KillsExactly(kept, row);
      KillsExactly(blank, row);
      KillKeepsRelated(kept, blank, row);
    }
  }

  lemma KillKeepsRelated(kept: Board, blank: Board, row: Row)
    requires Related(kept, blank) && (Killed(kept, row) == {} <==> Killed(blank, row) == {}) && row.op != Some("todo")
    ensures Related(BoardNext(kept, row), BoardNext(blank, row))
  {
    var p, q := kept.plans - Killed(kept, row), blank.plans - Killed(blank, row);
    assert q <= p;
  }

  /** Otherwise some update about the row is shown in one and not in the other. */
  lemma NotMetShows(kept: Board, blank: Board, row: Row)
    requires !Meets(kept, blank, row)
    ensures exists u :: Planned(u, row.id) && (u in BoardShows(kept, row)) != (u in BoardShows(blank, row))
  {
    if row.op == Some("todo") {
      MergeFresh(kept.history, row.items);
      var u := Plan(row.id, MergeTodo(kept.history, row.items), set item | item in row.items);
      assert u in BoardShows(kept, row) && u !in BoardShows(blank, row);
    } else {
      KillsExactly(kept, row);
      KillsExactly(blank, row);
      assert (PlanRemoved(row.id) in BoardShows(kept, row)) != (PlanRemoved(row.id) in BoardShows(blank, row));
    }
  }

  /** The update shows or removes a plan for the row of that id. */
  predicate Planned(u: Update, id: int) {
    (u.Plan? || u.PlanRemoved?) && u.entryId == id
  }
}
