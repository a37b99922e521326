/** The digest's ledger of model edits: how each was authored, which were refused and which revisit a path edited
    within the session's previous two model turns (plurnk-digest/src/DigestLedgers.ts). */
module EditCensus {

  import opened Optional

  datatype Form = Hash | Line | Range | Insert | Column | Prepend | Append | Offset | Pattern | Whole

  /** A mark as its JSON value; `Composite` is an array or an object, never equal to another. */
  datatype Mark = Text(text: string) | Number(value: real) | Null | Bool(b: bool) | Composite

  datatype Turn = Turn(id: int, loopId: int, byModel: bool)

  /** One model-authored edit; `marks` are those its stored line marker holds: `None` where there is no marker, an empty
      list where there is one that cannot be read. */
  datatype Row = Row(id: int, turnId: int, pathname: Option<string>, status: int, marks: Option<seq<Mark>>, pattern: bool)

  datatype Census = Census(edits: nat, refused: nat, revisits: nat, forms: map<Form, nat>)

  datatype Ledger = Ledger(bySession: map<int, Census>, revisitById: set<int>)

  datatype Result<+T> = Ok(value: T) | TypeError(id: int)

  function EditForm(row: Row): Form {
    if row.pattern then Pattern
    else if row.marks.None? then Whole
    else
      var marks := row.marks.value;
      if |marks| == 1 then
        if marks[0].Text? then Hash
        else if marks[0] == Number(-1.0) then Append
        else if marks[0] == Number(0.0) then Prepend
        else Line
      else if |marks| == 2 then Range
      else if |marks| == 3 then Offset
      else if |marks| == 4 && marks[0] == marks[2] && marks[0] != Composite && marks[1] == Number(1.0) && marks[3] == Number(1.0) then Insert
      else Column
  }

  predicate Short(row: Row, n: nat) {
    !row.pattern && row.marks.Some? && |row.marks.value| == n
  }

  /** Four marks that give the beginning of one line twice. */
  predicate Inserts(row: Row) {
    && Short(row, 4)
    && row.marks.value[1] == Number(1.0) && row.marks.value[3] == Number(1.0)
    && row.marks.value[0] == row.marks.value[2] && !row.marks.value[0].Composite?
  }

  /** What each form means. */
  lemma FormExactly(row: Row)
    ensures var form := EditForm(row);
      && (form == Pattern <==> row.pattern)
      && (form == Whole <==> !row.pattern && row.marks.None?)
      && (form == Hash <==> Short(row, 1) && row.marks.value[0].Text?)
      && (form == Append <==> Short(row, 1) && row.marks.value[0] == Number(-1.0))
      && (form == Prepend <==> Short(row, 1) && row.marks.value[0] == Number(0.0))
      && (form == Line <==> Short(row, 1) && !row.marks.value[0].Text? && row.marks.value[0] != Number(-1.0)
                              && row.marks.value[0] != Number(0.0))
      && (form == Range <==> Short(row, 2))
      && (form == Offset <==> Short(row, 3))
      && (form == Insert <==> Inserts(row))
      && (form == Column <==> !row.pattern && row.marks.Some? && !Inserts(row) && (|row.marks.value| == 0 || |row.marks.value| > 3))
  {
  }

  // ----- ordinals -----

  predicate DistinctIds(turns: seq<Turn>) {
    forall i, j :: 0 <= i < j < |turns| ==> turns[i].id != turns[j].id
  }

  predicate InOrder(turns: seq<Turn>) {
    forall i, j :: 0 <= i < j < |turns| ==> turns[i].id < turns[j].id
  }

  function InsertById(t: Turn, sorted: seq<Turn>): seq<Turn> {
    if sorted == [] || t.id < sorted[0].id then [t] + sorted else [sorted[0]] + InsertById(t, sorted[1..])
  }

  function SortById(turns: seq<Turn>): seq<Turn> {
    if turns == [] then [] else InsertById(turns[|turns| - 1], SortById(turns[..|turns| - 1]))
  }

  lemma {:induction false} InsertKeeps(t: Turn, sorted: seq<Turn>)
    requires InOrder(sorted) && forall u :: u in sorted ==> u.id != t.id
    ensures InOrder(InsertById(t, sorted))
    ensures forall u :: u in InsertById(t, sorted) <==> u == t || u in sorted
  {
    if sorted != [] && t.id >= sorted[0].id {
      InsertKeeps(t, sorted[1..]);
      var rest := InsertById(t, sorted[1..]);
      assert forall u :: u in sorted <==> u == sorted[0] || u in sorted[1..];
      forall k | 0 <= k < |rest| ensures sorted[0].id < rest[k].id {
        assert rest[k] in rest;
      }
    } else {
      assert forall u :: u in sorted ==> t.id < u.id;
    }
  }

  lemma {:induction false} SortKeeps(turns: seq<Turn>)
    requires DistinctIds(turns)
    ensures InOrder(SortById(turns)) && forall u :: u in SortById(turns) <==> u in turns
  {
    if turns != [] {
      var init, last := turns[..|turns| - 1], turns[|turns| - 1];
      SortKeeps(init);
      assert turns == init + [last];
      forall u | u in SortById(init) ensures u.id != last.id {
        assert u in init;
      }
      InsertKeeps(last, SortById(init));
    }
  }

  predicate InSession(t: Turn, loopSession: map<int, int>, session: int) {
    t.byModel && t.loopId in loopSession && loopSession[t.loopId] == session
  }

  /** The model turns of a session up to a turn id. */
  function UpTo(turns: seq<Turn>, loopSession: map<int, int>, session: int, id: int): set<int> {
    set t | t in turns && InSession(t, loopSession, session) && t.id <= id :: t.id
  }

  ghost predicate Scoped(turns: seq<Turn>, loopSession: map<int, int>) {
    forall t :: t in turns && t.byModel ==> t.loopId in loopSession
  }

  function ModelIds(turns: seq<Turn>): set<int> {
    set t | t in turns && t.byModel :: t.id
  }

  /** A turn's ordinal is how many model turns its session has had up to it. */
  ghost predicate Numbered(turns: seq<Turn>, loopSession: map<int, int>, ordinal: map<int, nat>) {
    ordinal.Keys == ModelIds(turns) && NumbersAll(turns, turns, loopSession, ordinal)
  }

  ghost predicate NumbersAll(some: seq<Turn>, turns: seq<Turn>, loopSession: map<int, int>, ordinal: map<int, nat>) {
    forall t :: t in some && t.byModel && t.loopId in loopSession && t.id in ordinal ==>
      ordinal[t.id] == |UpTo(turns, loopSession, loopSession[t.loopId], t.id)|
  }

  /** The ids of a session's model turns in a list. */
  function Ids(turns: seq<Turn>, loopSession: map<int, int>, session: int): set<int> {
    set t | t in turns && InSession(t, loopSession, session) :: t.id
  }

  lemma NextTurn(turns: seq<Turn>, sorted: seq<Turn>, loopSession: map<int, int>, i: nat, session: int)
    requires InOrder(sorted) && i < |sorted| && forall u :: u in sorted <==> u in turns
    ensures InSession(sorted[i], loopSession, session) ==>
      && Ids(sorted[..i + 1], loopSession, session) == UpTo(turns, loopSession, session, sorted[i].id)
      && |Ids(sorted[..i + 1], loopSession, session)| == |Ids(sorted[..i], loopSession, session)| + 1
    ensures !InSession(sorted[i], loopSession, session) ==>
      Ids(sorted[..i + 1], loopSession, session) == Ids(sorted[..i], loopSession, session)
  {
    var before, through := sorted[..i], sorted[..i + 1];
    assert through == before + [sorted[i]];
    if InSession(sorted[i], loopSession, session) {
      assert Ids(through, loopSession, session) == Ids(before, loopSession, session) + {sorted[i].id};
      forall id ensures id in Ids(through, loopSession, session) <==> id in UpTo(turns, loopSession, session, sorted[i].id) {
        if id in UpTo(turns, loopSession, session, sorted[i].id) {
          var t :| t in turns && InSession(t, loopSession, session) && t.id <= sorted[i].id && t.id == id;
          var k :| 0 <= k < |sorted| && sorted[k] == t;
          assert k <= i && t == through[k];
        }
      }
    }
  }

  /** The counters hold how many model turns of each session have gone by. */
  ghost predicate Counts(turns: seq<Turn>, loopSession: map<int, int>, perSession: map<int, nat>) {
    forall s :: (if s in perSession then perSession[s] else 0) == |Ids(turns, loopSession, s)|
  }

  /** Where the numbering stands after the first `i` turns. */
  ghost predicate Progress(turns: seq<Turn>, sorted: seq<Turn>, i: nat, loopSession: map<int, int>,
      perSession: map<int, nat>, ordinal: map<int, nat>)
    requires i <= |sorted|
  {
    && Scoped(sorted[..i], loopSession)
    && Counts(sorted[..i], loopSession, perSession)
    && ordinal.Keys == ModelIds(sorted[..i])
    && NumbersAll(sorted[..i], turns, loopSession, ordinal)
  }

  lemma ProgressSkips(turns: seq<Turn>, sorted: seq<Turn>, i: nat, loopSession: map<int, int>,
      perSession: map<int, nat>, ordinal: map<int, nat>)
    requires InOrder(sorted) && i < |sorted| && (forall u :: u in sorted <==> u in turns) && !sorted[i].byModel
    requires Progress(turns, sorted, i, loopSession, perSession, ordinal)
    ensures Progress(turns, sorted, i + 1, loopSession, perSession, ordinal)
  {
    assert sorted[..i + 1] == sorted[..i] + [sorted[i]];
    forall s {
      NextTurn(turns, sorted, loopSession, i, s);
    }
  }

  lemma ProgressCounts(turns: seq<Turn>, sorted: seq<Turn>, i: nat, loopSession: map<int, int>,
      perSession: map<int, nat>, ordinal: map<int, nat>, session: int, next: nat)
    requires InOrder(sorted) && i < |sorted| && (forall u :: u in sorted <==> u in turns) && InSession(sorted[i], loopSession, session)
    requires Progress(turns, sorted, i, loopSession, perSession, ordinal)
    requires next == (if session in perSession then perSession[session] else 0) + 1
    ensures Progress(turns, sorted, i + 1, loopSession, perSession[session := next], ordinal[sorted[i].id := next])
  {
    assert sorted[..i + 1] == sorted[..i] + [sorted[i]];
    forall s {
      NextTurn(turns, sorted, loopSession, i, s);
    }
    NumberNext(turns, sorted, loopSession, i, ordinal, next);
  }

  lemma NumberNext(turns: seq<Turn>, sorted: seq<Turn>, loopSession: map<int, int>, i: nat, ordinal: map<int, nat>,
      next: nat)
    requires InOrder(sorted) && i < |sorted| && sorted[i].byModel && sorted[i].loopId in loopSession
    requires ordinal.Keys == ModelIds(sorted[..i]) && NumbersAll(sorted[..i], turns, loopSession, ordinal)
    requires next == |UpTo(turns, loopSession, loopSession[sorted[i].loopId], sorted[i].id)|
    ensures ordinal[sorted[i].id := next].Keys == ModelIds(sorted[..i + 1])
    ensures NumbersAll(sorted[..i + 1], turns, loopSession, ordinal[sorted[i].id := next])
  {
    assert sorted[..i + 1] == sorted[..i] + [sorted[i]];
  }

  /** Numbers the model turns of every session, or finds one whose loop is not in scope. */
  method Ordinals(turns: seq<Turn>, loopSession: map<int, int>) returns (r: Result<map<int, nat>>)
    requires DistinctIds(turns)
    ensures r.TypeError? <==> !Scoped(turns, loopSession)
    ensures r.Ok? ==> Numbered(turns, loopSession, r.value)
  {
    var ordinal: map<int, nat> := map[];
    var perSession: map<int, nat> := map[];
    var sorted := SortById(turns);
    SortKeeps(turns);
    for i := 0 to |sorted|
      invariant Progress(turns, sorted, i, loopSession, perSession, ordinal)
    {
      var turn := sorted[i];
      if !turn.byModel {
        ProgressSkips(turns, sorted, i, loopSession, perSession, ordinal);
        continue;
      }
      if turn.loopId !in loopSession {
        assert turn in turns;
        return TypeError(turn.id);
      }
      var session := loopSession[turn.loopId];
      var next := (if session in perSession then perSession[session] else 0) + 1;
      ProgressCounts(turns, sorted, i, loopSession, perSession, ordinal, session, next);
      perSession := perSession[session := next];
      ordinal := ordinal[turn.id := next];
    }
    assert sorted[..|sorted|] == sorted;
    r := Ok(ordinal);
  }

  /** The distance the revisit window counts in: how many model turns of the session lie after `t` up to `u`. */
  lemma OrdinalDistance(turns: seq<Turn>, loopSession: map<int, int>, ordinal: map<int, nat>, session: int,
      t: Turn, u: Turn)
    requires Numbered(turns, loopSession, ordinal) && t in turns && u in turns && t.id < u.id
    requires InSession(t, loopSession, session) && InSession(u, loopSession, session)
    ensures t.id in ordinal && u.id in ordinal
    ensures ordinal[u.id] == ordinal[t.id]
      + |set v | v in turns && InSession(v, loopSession, session) && t.id < v.id <= u.id :: v.id|
    ensures ordinal[t.id] < ordinal[u.id]
  {
    var low, high := UpTo(turns, loopSession, session, t.id), UpTo(turns, loopSession, session, u.id);
    var between := set v | v in turns && InSession(v, loopSession, session) && t.id < v.id <= u.id :: v.id;
    Grows(turns, loopSession, session, t.id, u.id);
    assert |high| == |low| + |between|;
    assert u.id in between;
    assert t in turns && t.byModel && u.byModel;
    assert ordinal[t.id] == |low| && ordinal[u.id] == |high|;
  }

  lemma Grows(turns: seq<Turn>, loopSession: map<int, int>, session: int, t: int, u: int)
    requires t < u
    ensures var between := set v | v in turns && InSession(v, loopSession, session) && t < v.id <= u :: v.id;
      UpTo(turns, loopSession, session, u) == UpTo(turns, loopSession, session, t) + between
      && UpTo(turns, loopSession, session, t) !! between
  {
  }

  // ----- one session's census -----

  /** Every edit sits on a numbered turn. */
  ghost predicate Placed(rows: seq<Row>, ordinal: map<int, nat>) {
    forall i :: 0 <= i < |rows| ==> rows[i].turnId in ordinal
  }

  /** The ordinal at which the last of the rows that edit a path edits it. */
  function LastEdited(rows: seq<Row>, ordinal: map<int, nat>, path: string): Option<nat>
    requires Placed(rows, ordinal)
  {
    if rows == [] then None
    else
      var last := rows[|rows| - 1];
      if last.pathname == Some(path) then Some(ordinal[last.turnId]) else LastEdited(rows[..|rows| - 1], ordinal, path)
  }

  /** The next row edits a path whose last edit before it lies one or two turns back. */
  predicate IsRevisit(before: seq<Row>, ordinal: map<int, nat>, row: Row)
    requires Placed(before, ordinal) && row.turnId in ordinal
  {
    row.pathname.Some? &&
    var previous := LastEdited(before, ordinal, row.pathname.value);
    previous.Some? && previous.value < ordinal[row.turnId] <= previous.value + 2
  }

  function Revisits(rows: seq<Row>, ordinal: map<int, nat>): nat
    requires Placed(rows, ordinal)
  {
    if rows == [] then 0
    else
      var before, last := rows[..|rows| - 1], rows[|rows| - 1];
      Revisits(before, ordinal) + if IsRevisit(before, ordinal, last) then 1 else 0
  }

  /** The ids of the rows that count as revisits. */
  function RevisitIds(rows: seq<Row>, ordinal: map<int, nat>): set<int>
    requires Placed(rows, ordinal)
  {
    if rows == [] then {}
    else
      var before, last := rows[..|rows| - 1], rows[|rows| - 1];
      RevisitIds(before, ordinal) + if IsRevisit(before, ordinal, last) then {last.id} else {}
  }

  function Refused(rows: seq<Row>): nat {
    if rows == [] then 0
    else Refused(rows[..|rows| - 1]) + if rows[|rows| - 1].status >= 400 then 1 else 0
  }

  function OfForm(rows: seq<Row>, form: Form): nat {
    if rows == [] then 0
    else OfForm(rows[..|rows| - 1], form) + if EditForm(rows[|rows| - 1]) == form then 1 else 0
  }

  const NO_FORMS: map<Form, nat> := map[
    Hash := 0, Line := 0, Range := 0, Insert := 0, Column := 0, Prepend := 0, Append := 0, Offset := 0, Pattern := 0, Whole := 0]

  lemma NoFormsYet()
    ensures forall form :: form in NO_FORMS && NO_FORMS[form] == 0
  {
    forall form: Form ensures form in NO_FORMS && NO_FORMS[form] == 0 {
      match form {
        case Hash =>
        case Line =>
        case Range =>
        case Insert =>
        case Column =>
        case Prepend =>
        case Append =>
        case Offset =>
        case Pattern =>
        case Whole =>
      }
    }
  }

  /** What a census counts. */
  ghost predicate Counted(census: Census, rows: seq<Row>, ordinal: map<int, nat>) {
    && census.edits == |rows|
    && census.refused == Refused(rows)
    && (forall form :: form in census.forms && census.forms[form] == OfForm(rows, form))
    && Placed(rows, ordinal)
    && census.revisits == Revisits(rows, ordinal)
  }

  method SessionCensus(rows: seq<Row>, ordinal: map<int, nat>) returns (r: Result<(Census, set<int>)>)
    ensures r.TypeError? <==> !Placed(rows, ordinal)
    ensures r.Ok? ==> Counted(r.value.0, rows, ordinal) && r.value.1 == RevisitIds(rows, ordinal)
  {
    var census := Census(0, 0, 0, NO_FORMS);
    var revisited: set<int> := {};
    var lastEdited: map<string, nat> := map[];
    NoFormsYet();
    for i := 0 to |rows|
      invariant Counted(census, rows[..i], ordinal) && revisited == RevisitIds(rows[..i], ordinal)
      invariant forall path :: LastEdited(rows[..i], ordinal, path) == if path in lastEdited then Some(lastEdited[path]) else None
    {
      var row := rows[i];
      var form := EditForm(row);
      ghost var through := rows[..i + 1];
      assert through[..i] == rows[..i] && through[i] == row;
      census := census.(edits := census.edits + 1);
      census := census.(forms := census.forms[form := census.forms[form] + 1]);
      if row.status >= 400 {
        census := census.(refused := census.refused + 1);
      }
      if row.turnId !in ordinal {
        return TypeError(row.id);
      }
      var at := ordinal[row.turnId];
      if row.pathname.Some? {
        var path := row.pathname.value;
        if path in lastEdited && lastEdited[path] < at && at - lastEdited[path] <= 2 {
          census := census.(revisits := census.revisits + 1);
          revisited := revisited + {row.id};
        }
        lastEdited := lastEdited[path := at];
      }
    }
    assert rows[..|rows|] == rows;
    r := Ok((census, revisited));
  }

  // ----- the definition the ledger must match -----

  /** Some row edits the path on the turn of that ordinal. */
  ghost predicate EditedAt(rows: seq<Row>, ordinal: map<int, nat>, path: string, at: int) {
    exists i :: 0 <= i < |rows| && rows[i].pathname == Some(path) && rows[i].turnId in ordinal && ordinal[rows[i].turnId] == at
  }

  /** The distinct path and turn pairs whose path was also edited one or two model turns earlier. */
  ghost function RevisitedPairs(rows: seq<Row>, ordinal: map<int, nat>): set<(string, nat)>
    requires Placed(rows, ordinal)
  {
    set i | 0 <= i < |rows| && rows[i].pathname.Some?
      && InWindow(rows, ordinal, rows[i].pathname.value, ordinal[rows[i].turnId]) :: (rows[i].pathname.value, ordinal[rows[i].turnId])
  }

  ghost predicate InWindow(rows: seq<Row>, ordinal: map<int, nat>, path: string, at: int) {
    EditedAt(rows, ordinal, path, at - 1) || EditedAt(rows, ordinal, path, at - 2)
  }

  ghost predicate TurnOrder(rows: seq<Row>, ordinal: map<int, nat>)
    requires Placed(rows, ordinal)
  {
    forall i, j :: 0 <= i < j < |rows| ==> ordinal[rows[i].turnId] <= ordinal[rows[j].turnId]
  }

  /** In turn order the last edit of a path is its latest. */
  lemma {:induction false} LastIsLatest(rows: seq<Row>, ordinal: map<int, nat>, path: string, at: int)
    requires Placed(rows, ordinal) && TurnOrder(rows, ordinal)
    ensures LastEdited(rows, ordinal, path) == Some(at) ==> EditedAt(rows, ordinal, path, at)
    ensures EditedAt(rows, ordinal, path, at) ==>
              LastEdited(rows, ordinal, path).Some? && at <= LastEdited(rows, ordinal, path).value
  {
    if rows != [] {
      LastIsLatest(rows[..|rows| - 1], ordinal, path, at);
      EditedAtGrows(rows, ordinal, path, at);
    }
  }

  lemma EditedAtGrows(rows: seq<Row>, ordinal: map<int, nat>, path: string, at: int)
    requires rows != []
    ensures var before, last := rows[..|rows| - 1], rows[|rows| - 1];
      EditedAt(rows, ordinal, path, at) <==>
        EditedAt(before, ordinal, path, at) || (last.pathname == Some(path) && last.turnId in ordinal && ordinal[last.turnId] == at)
  {
    var n := |rows| - 1;
    var before := rows[..n];
    if EditedAt(before, ordinal, path, at) {
      var i :| 0 <= i < |before| && before[i].pathname == Some(path) && before[i].turnId in ordinal && ordinal[before[i].turnId] == at;
      assert rows[i] == before[i];
    }
    if EditedAt(rows, ordinal, path, at) {
      var i :| 0 <= i < |rows| && rows[i].pathname == Some(path) && rows[i].turnId in ordinal && ordinal[rows[i].turnId] == at;
      if i < n {
        assert before[i] == rows[i];
      }
    }
  }

  lemma PairExactly(rows: seq<Row>, ordinal: map<int, nat>, path: string, at: nat)
    requires Placed(rows, ordinal)
    ensures (path, at) in RevisitedPairs(rows, ordinal) <==> EditedAt(rows, ordinal, path, at) && InWindow(rows, ordinal, path, at)
  {
  }

  /** The last row adds its pair exactly when it counts as a revisit. */
  lemma PairsGrow(rows: seq<Row>, ordinal: map<int, nat>)
    requires Placed(rows, ordinal) && TurnOrder(rows, ordinal) && rows != []
    ensures var before, last := rows[..|rows| - 1], rows[|rows| - 1];
      if IsRevisit(before, ordinal, last) then
        var pair := (last.pathname.value, ordinal[last.turnId]);
        pair !in RevisitedPairs(before, ordinal)
          && RevisitedPairs(rows, ordinal) == RevisitedPairs(before, ordinal) + {pair}
      else RevisitedPairs(rows, ordinal) == RevisitedPairs(before, ordinal)
  {
    var before, last := rows[..|rows| - 1], rows[|rows| - 1];
    var t := ordinal[last.turnId];
    forall path: string, at: nat
      ensures (path, at) in RevisitedPairs(rows, ordinal) <==>
        (path, at) in RevisitedPairs(before, ordinal)
        || (IsRevisit(before, ordinal, last) && last.pathname == Some(path) && at == t)
      ensures IsRevisit(before, ordinal, last) && last.pathname == Some(path) && at == t ==> (path, at) !in RevisitedPairs(before, ordinal)
    {
      PairGrows(rows, ordinal, path, at);
    }
  }

  lemma PairGrows(rows: seq<Row>, ordinal: map<int, nat>, path: string, at: nat)
    requires Placed(rows, ordinal) && TurnOrder(rows, ordinal) && rows != []
    ensures var before, last := rows[..|rows| - 1], rows[|rows| - 1];
      var added := IsRevisit(before, ordinal, last) && last.pathname == Some(path) && at == ordinal[last.turnId];
      && ((path, at) in RevisitedPairs(rows, ordinal) <==> (path, at) in RevisitedPairs(before, ordinal) || added)
      && (added ==> (path, at) !in RevisitedPairs(before, ordinal))
  {
    var before, last := rows[..|rows| - 1], rows[|rows| - 1];
    var t := ordinal[last.turnId];
    PairExactly(rows, ordinal, path, at);
    PairExactly(before, ordinal, path, at);
    EditedNotAfter(rows, ordinal, path, at);
    EditedAtGrows(rows, ordinal, path, at);
    EditedAtGrows(rows, ordinal, path, at - 1);
    EditedAtGrows(rows, ordinal, path, at - 2);
    if last.pathname == Some(path) && at == t {
      RevisitExactly(before, ordinal, last, path);
    }
  }

  lemma EditedNotAfter(rows: seq<Row>, ordinal: map<int, nat>, path: string, at: int)
    requires Placed(rows, ordinal) && TurnOrder(rows, ordinal) && rows != []
    ensures EditedAt(rows, ordinal, path, at) ==> at <= ordinal[rows[|rows| - 1].turnId]
  {
  }

  /** A row is a revisit exactly when its path was edited in the window and not yet on its own turn. */
  lemma RevisitExactly(before: seq<Row>, ordinal: map<int, nat>, last: Row, path: string)
    requires Placed(before, ordinal) && TurnOrder(before, ordinal) && last.turnId in ordinal && last.pathname == Some(path)
    requires before != [] ==> ordinal[before[|before| - 1].turnId] <= ordinal[last.turnId]
    ensures IsRevisit(before, ordinal, last) <==>
      InWindow(before, ordinal, path, ordinal[last.turnId]) && !EditedAt(before, ordinal, path, ordinal[last.turnId])
  {
    var t: int := ordinal[last.turnId];
    var previous := LastEdited(before, ordinal, path);
    LastIsLatest(before, ordinal, path, t);
    LastIsLatest(before, ordinal, path, t - 1);
    LastIsLatest(before, ordinal, path, t - 2);
    if previous.Some? {
      LastIsLatest(before, ordinal, path, previous.value);
      EditedNotAfter(before, ordinal, path, previous.value);
    }
  }

  /** With rows in turn order the ledger's last-seen map counts the same thing as the definition over sets. */
  lemma {:induction false} RevisitsCountPairs(rows: seq<Row>, ordinal: map<int, nat>)
    requires Placed(rows, ordinal) && TurnOrder(rows, ordinal)
    ensures Revisits(rows, ordinal) == |RevisitedPairs(rows, ordinal)|
  {
    if rows == [] {
      assert RevisitedPairs(rows, ordinal) == {};
    } else {
      RevisitsCountPairs(rows[..|rows| - 1], ordinal);
      PairsGrow(rows, ordinal);
    }
  }

  /** Out of turn order the two can differ: the middle row hides that the path was edited one turn earlier. */
  lemma OrderMatters()
    ensures exists rows: seq<Row>, ordinal: map<int, nat> ::
      Placed(rows, ordinal) && Revisits(rows, ordinal) != |RevisitedPairs(rows, ordinal)|
  {
    var ordinal: map<int, nat> := map[10 := 1, 20 := 2];
    var late, early := Row(1, 20, Some("a"), 200, None, false), Row(2, 10, Some("a"), 200, None, false);
    var rows := [late, early];
    assert rows[..|rows| - 1] == [late] && [late][..|[late]| - 1] == [];
    assert LastEdited([late], ordinal, "a") == Some(2) && LastEdited([], ordinal, "a") == None;
    assert Revisits([late], ordinal) == 0;
    assert Revisits(rows, ordinal) == 0;
    assert EditedAt(rows, ordinal, "a", 2) by {
      assert rows[0].pathname == Some("a");
    }
    assert EditedAt(rows, ordinal, "a", 1) by {
      assert rows[1].pathname == Some("a");
    }
    PairExactly(rows, ordinal, "a", 2);
    assert ("a", 2) in RevisitedPairs(rows, ordinal);
  }

  /** Every edit has one form. */
  lemma {:induction false} FormsAddUp(rows: seq<Row>)
    ensures OfForm(rows, Hash) + OfForm(rows, Line) + OfForm(rows, Range) + OfForm(rows, Insert) + OfForm(rows, Column)
      + OfForm(rows, Prepend) + OfForm(rows, Append) + OfForm(rows, Offset) + OfForm(rows, Pattern) + OfForm(rows, Whole) == |rows|
  {
    if rows != [] {
      FormsAddUp(rows[..|rows| - 1]);
      assert forall form :: OfForm(rows, form) == OfForm(rows[..|rows| - 1], form) + if EditForm(rows[|rows| - 1]) == form then 1 else 0;
    }
  }

  /** The refusals are the edits with a status of 400 or more. */
  lemma {:induction false} RefusedExactly(rows: seq<Row>)
    ensures Refused(rows) == |set i | 0 <= i < |rows| && rows[i].status >= 400|
  {
    var refused := set i | 0 <= i < |rows| && rows[i].status >= 400;
    if rows != [] {
      var n := |rows| - 1;
      var before := rows[..n];
      var earlier := set i | 0 <= i < |before| && before[i].status >= 400;
      RefusedExactly(before);
      assert refused == earlier + if rows[n].status >= 400 then {n} else {};
    } else {
      assert refused == {};
    }
  }

  /** No edit is refused or a revisit twice. */
  lemma {:induction false} CountsStayWithin(rows: seq<Row>, ordinal: map<int, nat>)
    requires Placed(rows, ordinal)
    ensures Refused(rows) <= |rows| && Revisits(rows, ordinal) <= |rows|
  {
    if rows != [] {
      CountsStayWithin(rows[..|rows| - 1], ordinal);
    }
  }

  /** The marked ids are those of the rows that revisit. */
  lemma {:induction false} MarkedExactly(rows: seq<Row>, ordinal: map<int, nat>, id: int)
    requires Placed(rows, ordinal)
    ensures id in RevisitIds(rows, ordinal) <==>
      exists i :: 0 <= i < |rows| && rows[i].id == id && IsRevisit(rows[..i], ordinal, rows[i])
  {
    if rows != [] {
      var n := |rows| - 1;
      var before := rows[..n];
      MarkedExactly(before, ordinal, id);
      assert forall i :: 0 <= i <= n ==> before[..i] == rows[..i];
      assert forall i :: 0 <= i < n ==> before[i] == rows[i];
    }
  }

  /** As many rows are marked as are counted, each row having its own id. */
  lemma {:induction false} AsManyMarkedAsCounted(rows: seq<Row>, ordinal: map<int, nat>)
    requires Placed(rows, ordinal) && forall i, j :: 0 <= i < j < |rows| ==> rows[i].id != rows[j].id
    ensures |RevisitIds(rows, ordinal)| == Revisits(rows, ordinal)
  {
    if rows != [] {
      var before, last := rows[..|rows| - 1], rows[|rows| - 1];
      AsManyMarkedAsCounted(before, ordinal);
      MarkedExactly(before, ordinal, last.id);
      assert last.id !in RevisitIds(before, ordinal);
    }
  }

  // ----- all sessions -----

  /** The ledger of a set of sessions. */
  ghost predicate Covers(ledger: Ledger, sessions: set<int>, rowsBySession: map<int, seq<Row>>, ordinal: map<int, nat>)
    requires sessions <= rowsBySession.Keys
  {
    && ledger.bySession.Keys == sessions
    && (forall s :: s in sessions ==> Counted(ledger.bySession[s], rowsBySession[s], ordinal))
    && forall id :: id in ledger.revisitById <==> RevisitedIn(sessions, rowsBySession, ordinal, id)
  }

  ghost predicate RevisitedIn(sessions: set<int>, rowsBySession: map<int, seq<Row>>, ordinal: map<int, nat>, id: int)
    requires sessions <= rowsBySession.Keys
  {
    exists s :: s in sessions && Placed(rowsBySession[s], ordinal) && id in RevisitIds(rowsBySession[s], ordinal)
  }

  lemma CoversNext(ledger: Ledger, sessions: set<int>, rowsBySession: map<int, seq<Row>>, ordinal: map<int, nat>,
      session: int, census: Census, revisited: set<int>)
    requires sessions <= rowsBySession.Keys && session in rowsBySession && session !in sessions
    requires Covers(ledger, sessions, rowsBySession, ordinal)
    requires Counted(census, rowsBySession[session], ordinal) && revisited == RevisitIds(rowsBySession[session], ordinal)
    ensures Covers(Ledger(ledger.bySession[session := census], ledger.revisitById + revisited),
                   sessions + {session}, rowsBySession, ordinal)
  {
    var next := ledger.revisitById + revisited;
    forall id ensures id in next <==> RevisitedIn(sessions + {session}, rowsBySession, ordinal, id) {
      if id in ledger.revisitById {
        var s :| s in sessions && Placed(rowsBySession[s], ordinal) && id in RevisitIds(rowsBySession[s], ordinal);
        assert s in sessions + {session};
      }
    }
  }

  /** An edit sits on a turn no model produced. */
  ghost predicate Misplaced(turns: seq<Turn>, rowsBySession: map<int, seq<Row>>) {
    exists s, i :: s in rowsBySession && 0 <= i < |rowsBySession[s]| && rowsBySession[s][i].turnId !in ModelIds(turns)
  }

  lemma MisplacedRow(turns: seq<Turn>, loopSession: map<int, int>, rowsBySession: map<int, seq<Row>>,
      ordinal: map<int, nat>, session: int)
    requires Numbered(turns, loopSession, ordinal) && session in rowsBySession && !Placed(rowsBySession[session], ordinal)
    ensures Misplaced(turns, rowsBySession)
  {
    var i :| 0 <= i < |rowsBySession[session]| && rowsBySession[session][i].turnId !in ordinal;
    assert rowsBySession[session][i].turnId !in ModelIds(turns);
  }

  lemma CoveredArePlaced(turns: seq<Turn>, loopSession: map<int, int>, rowsBySession: map<int, seq<Row>>,
      ordinal: map<int, nat>, ledger: Ledger)
    requires Numbered(turns, loopSession, ordinal) && Covers(ledger, rowsBySession.Keys, rowsBySession, ordinal)
    ensures !Misplaced(turns, rowsBySession)
  {
  }

  lemma SomeMember(s: set<int>)
    requires s != {}
    ensures exists x :: x in s
  {
    assert (forall x :: x !in s) ==> s == {};
  }

  /** Every session's census and the revisits of them all, or an edit found out of place. */
  method LedgerOf(rowsBySession: map<int, seq<Row>>, ordinal: map<int, nat>) returns (r: Result<Ledger>)
    ensures r.Ok? ==> Covers(r.value, rowsBySession.Keys, rowsBySession, ordinal)
    ensures r.TypeError? ==> exists s :: s in rowsBySession && !Placed(rowsBySession[s], ordinal)
  {
    var ledger := Ledger(map[], {});
    var todo: set<int> := rowsBySession.Keys;
    while todo != {}
      invariant todo <= rowsBySession.Keys && Covers(ledger, rowsBySession.Keys - todo, rowsBySession, ordinal)
      decreases todo
    {
      SomeMember(todo);
      var session :| session in todo;
      ghost var done := rowsBySession.Keys - todo;
      var census := SessionCensus(rowsBySession[session], ordinal);
      if census.TypeError? {
        return TypeError(census.id);
      }
      CoversNext(ledger, done, rowsBySession, ordinal, session, census.value.0, census.value.1);
      ledger := Ledger(ledger.bySession[session := census.value.0], ledger.revisitById + census.value.1);
      todo := todo - {session};
      assert rowsBySession.Keys - todo == done + {session};
    }
    assert rowsBySession.Keys - todo == rowsBySession.Keys;
    r := Ok(ledger);
  }

  /** The ledger of a digest, unless a model turn's loop is out of scope or an edit sits on a turn no model produced. */
  method CensusOf(turns: seq<Turn>, loopSession: map<int, int>, rowsBySession: map<int, seq<Row>>)
    returns (r: Result<Ledger>, ordinal: map<int, nat>)
    requires DistinctIds(turns)
    ensures r.Ok? ==> Numbered(turns, loopSession, ordinal) && Covers(r.value, rowsBySession.Keys, rowsBySession, ordinal)
    ensures r.TypeError? <==> !Scoped(turns, loopSession) || Misplaced(turns, rowsBySession)
  {
    var numbers := Ordinals(turns, loopSession);
    if numbers.TypeError? {
      return TypeError(numbers.id), map[];
    }
    ordinal := numbers.value;
    r := LedgerOf(rowsBySession, ordinal);
    if r.TypeError? {
      ghost var session :| session in rowsBySession && !Placed(rowsBySession[session], ordinal);
      MisplacedRow(turns, loopSession, rowsBySession, ordinal, session);
    } else {
      CoveredArePlaced(turns, loopSession, rowsBySession, ordinal, r.value);
    }
  }
}
