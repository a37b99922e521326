/** Replay of a session's history, one page of loops at a time, through one stateful translator
    (plurnk-acp/src/replay.ts). */
module Replay {

  import opened Optional
  import opened Paging
  import opened Translator
  import opened TranslatorLoops

  datatype Options = Options(limits: Limits, cursor: Cursor, openStreamTargets: Option<set<string>>)

  /** What a replay returns: the updates, and the loops its two links lead on from. */
  datatype Result = Result(updates: seq<Update>, older: Option<nat>, newer: Option<nat>)

  // ----- the rows in order -----

  predicate Precedes(a: Row, b: Row) {
    || a.loopSeq < b.loopSeq
    || (a.loopSeq == b.loopSeq && a.turnSeq < b.turnSeq)
    || (a.loopSeq == b.loopSeq && a.turnSeq == b.turnSeq && a.sequence < b.sequence)
    || (a.loopSeq == b.loopSeq && a.turnSeq == b.turnSeq && a.sequence == b.sequence && a.id < b.id)
  }

  /** Lists of numbers, by the first place they differ in. */
  predicate Less(a: seq<int>, b: seq<int>) {
    |a| == |b| > 0 && (a[0] < b[0] || (a[0] == b[0] && Less(a[1..], b[1..])))
  }

  /** Rows are ordered by loop, then turn, then sequence, then id. */
  lemma PrecedesExactly(a: Row, b: Row)
    ensures Precedes(a, b) <==> Less([a.loopSeq, a.turnSeq, a.sequence, a.id], [b.loopSeq, b.turnSeq, b.sequence, b.id])
    ensures a.id != b.id ==> Precedes(a, b) != Precedes(b, a)
  {
    var x, y: seq<int> := [a.loopSeq, a.turnSeq, a.sequence, a.id], [b.loopSeq, b.turnSeq, b.sequence, b.id];
    LessFirst(x, y);
    LessFirst(x[1..], y[1..]);
    LessFirst(x[1..][1..], y[1..][1..]);
    LessFirst(x[1..][1..][1..], y[1..][1..][1..]);
  }

  lemma LessFirst(a: seq<int>, b: seq<int>)
    requires |a| == |b| > 0
    ensures Less(a, b) <==> a[0] < b[0] || (a[0] == b[0] && Less(a[1..], b[1..]))
  {
  }

  predicate InOrder(rows: seq<Row>) {
    forall i, j :: 0 <= i < j < |rows| ==> !Precedes(rows[j], rows[i])
  }

  function Insert(row: Row, sorted: seq<Row>): seq<Row>
    decreases |sorted|
  {
    if sorted == [] || Precedes(row, sorted[0]) then [row] + sorted else [sorted[0]] + Insert(row, sorted[1..])
  }

  /** The session's own rows, sorted. */
  function Active(rows: seq<Row>): seq<Row>
    decreases |rows|
  {
    if rows == [] then []
    else
      var before, last := Active(rows[..|rows| - 1]), rows[|rows| - 1];
      if last.inherited then before else Insert(last, before)
  }

  lemma {:induction false} InsertHolds(row: Row, sorted: seq<Row>)
    ensures forall r :: r in Insert(row, sorted) <==> r == row || r in sorted
    decreases |sorted|
  {
    if sorted != [] && !Precedes(row, sorted[0]) {
      InsertHolds(row, sorted[1..]);
      assert forall r :: r in sorted <==> r == sorted[0] || r in sorted[1..];
    }
  }

  lemma {:induction false} InsertKeeps(row: Row, sorted: seq<Row>)
    requires InOrder(sorted)
    ensures InOrder(Insert(row, sorted))
    decreases |sorted|
  {
    if sorted != [] && !Precedes(row, sorted[0]) {
      var first, rest := sorted[0], Insert(row, sorted[1..]);
      InsertKeeps(row, sorted[1..]);
      InsertHolds(row, sorted[1..]);
      assert forall r :: r in sorted[1..] ==> !Precedes(r, first);
      forall k | 0 <= k < |rest| ensures !Precedes(rest[k], first) {
        assert rest[k] in rest;
      }
    }
  }

  lemma {:induction false} InsertCounts(row: Row, sorted: seq<Row>)
    ensures multiset(Insert(row, sorted)) == multiset(sorted) + multiset{row}
    decreases |sorted|
  {
    if sorted != [] && !Precedes(row, sorted[0]) {
      InsertCounts(row, sorted[1..]);
      assert sorted == [sorted[0]] + sorted[1..];
    }
  }

  lemma {:induction false} ActiveKeeps(rows: seq<Row>)
    ensures InOrder(Active(rows))
    ensures forall r :: r in Active(rows) <==> r in rows && !r.inherited
    decreases |rows|
  {
    if rows != [] {
      var init, last := rows[..|rows| - 1], rows[|rows| - 1];
      ActiveKeeps(init);
      assert rows == init + [last];
      if !last.inherited {
        InsertKeeps(last, Active(init));
        InsertHolds(last, Active(init));
      }
    }
  }

  /** Sorting loses no row and repeats none. */
  lemma {:induction false} ActiveCounts(rows: seq<Row>, r: Row)
    ensures multiset(Active(rows))[r] == if r.inherited then 0 else multiset(rows)[r]
    decreases |rows|
  {
    if rows != [] {
      var init, last := rows[..|rows| - 1], rows[|rows| - 1];
      ActiveCounts(init, r);
      assert rows == init + [last];
      if !last.inherited {
        InsertCounts(last, Active(init));
      }
    }
  }

  /** The loops of sorted rows, in order. */
  function LoopsOf(active: seq<Row>): seq<nat>
    decreases |active|
  {
    if active == [] then []
    else
      var before, last := LoopsOf(active[..|active| - 1]), active[|active| - 1].loopSeq;
      if last in before then before else before + [last]
  }

  lemma {:induction false} LoopsInOrder(active: seq<Row>)
    requires InOrder(active)
    ensures Increasing(LoopsOf(active))
    ensures forall loop :: loop in LoopsOf(active) <==> exists r :: r in active && r.loopSeq == loop
    decreases |active|
  {
    LoopsHold(active);
    if active != [] {
      var init, last := active[..|active| - 1], active[|active| - 1];
      LoopsInOrder(init);
      forall loop | loop in LoopsOf(init) ensures loop <= last.loopSeq {
        var k :| 0 <= k < |init| && init[k].loopSeq == loop;
        assert !Precedes(active[|active| - 1], active[k]);
      }
      AppendsIncreasing(LoopsOf(init), last.loopSeq);
    }
  }

  lemma AppendsIncreasing(before: seq<nat>, last: nat)
    requires Increasing(before) && forall loop :: loop in before ==> loop <= last
    ensures last !in before ==> Increasing(before + [last])
  {
    assert forall k :: 0 <= k < |before| ==> before[k] in before;
  }

  lemma {:induction false} LoopsHold(active: seq<Row>)
    ensures forall loop :: loop in LoopsOf(active) <==> exists r :: r in active && r.loopSeq == loop
    decreases |active|
  {
    if active != [] {
      var init, last := active[..|active| - 1], active[|active| - 1];
      LoopsHold(init);
      assert active == init + [last];
      forall loop: nat ensures loop in LoopsOf(active) <==> exists r :: r in active && r.loopSeq == loop {
        if loop in LoopsOf(init) {
          var r :| r in init && r.loopSeq == loop;
          assert r in active;
        }
        if loop == last.loopSeq {
          assert last in active;
        }
      }
    }
  }

  // ----- what a translator shows -----

  /** The stream of row `i` is over: nobody has it open, or a later row is its result, or belongs to a later turn. */
  predicate Ended(active: seq<Row>, i: nat, openStreamTargets: Option<set<string>>)
    requires i < |active|
  {
    var row := active[i];
    && row.stream.Some?
    && ((openStreamTargets.Some? && row.stream.value !in openStreamTargets.value)
        || exists j :: i < j < |active| &&
             (active[j].address == row.stream
              || active[j].loopSeq > row.loopSeq
              || (active[j].loopSeq == row.loopSeq && active[j].turnSeq > row.turnSeq)))
  }

  function ItemAt(active: seq<Row>, open: Option<set<string>>, i: nat): Item
    requires i < |active|
  {
    Item(active[i], Ended(active, i, open))
  }

  /** Where a translator stands after the rows of the selected loops among the first `n`. */
  function Standing(s: State, active: seq<Row>, open: Option<set<string>>, selected: seq<nat>, n: nat): State
    requires n <= |active|
  {
    if n == 0 then s
    else
      var before := Standing(s, active, open, selected, n - 1);
      if active[n - 1].loopSeq in selected then Deliver(before, ItemAt(active, open, n - 1)).state else before
  }

  /** What it has shown by then for the rows of one of these loops. */
  function Share(s: State, active: seq<Row>, open: Option<set<string>>, selected: seq<nat>, n: nat,
      loop: nat): seq<Update>
    requires n <= |active|
  {
    if n == 0 then []
    else
      Share(s, active, open, selected, n - 1, loop)
        + if active[n - 1].loopSeq == loop
          then Deliver(Standing(s, active, open, selected, n - 1), ItemAt(active, open, n - 1)).updates else []
  }

  /** What it shows for each loop in the end. */
  function Shares(s: State, active: seq<Row>, open: Option<set<string>>, selected: seq<nat>): nat -> seq<Update> {
    (loop: nat) => Share(s, active, open, selected, |active|, loop)
  }

  /** What a fresh translator shows for each loop by itself. */
  function ShownAlone(active: seq<Row>, open: Option<set<string>>, sessionId: int): nat -> seq<Update> {
    (loop: nat) => Share(Fresh(sessionId), active, open, [loop], |active|, loop)
  }

  function Concat(page: seq<nat>, show: nat -> seq<Update>): seq<Update>
    decreases |page|
  {
    if page == [] then [] else show(page[0]) + Concat(page[1..], show)
  }

  // ----- the replay -----

  function Bucket(updatesByLoop: map<nat, seq<Update>>, loop: nat): seq<Update> {
    if loop in updatesByLoop then updatesByLoop[loop] else []
  }

  function SizesOf(show: nat -> seq<Update>, size: seq<Update> -> nat): Sizes {
    (loop: nat) => size(show(loop))
  }

  method DeliverRow(translator: SessionTranslator, row: Row, streamEnded: bool) returns (updates: seq<Update>)
    modifies translator
    ensures Output(translator.Now(), updates) == Deliver(old(translator.Now()), Item(row, streamEnded))
  {
    updates := translator.OnLogEntry(row);
    if row.stream.Some? {
      if streamEnded {
        var concluded := translator.OnTerminalConcluded(row.id, row.stream, row.statusRx);
        updates := updates + concluded;
      }
    }
  }

  method TranslateLoops(translator: SessionTranslator, active: seq<Row>, open: Option<set<string>>, selected: seq<nat>)
    returns (updatesByLoop: map<nat, seq<Update>>)
    modifies translator
    ensures translator.Now() == Standing(old(translator.Now()), active, open, selected, |active|)
    ensures forall loop: nat :: loop in selected ==>
              Bucket(updatesByLoop, loop) == Shares(old(translator.Now()), active, open, selected)(loop)
  {
    updatesByLoop := map[];
    ghost var s := translator.Now();
    for i := 0 to |active|
      invariant translator.Now() == Standing(s, active, open, selected, i)
      invariant forall loop: nat :: loop in selected ==>
                  Bucket(updatesByLoop, loop) == Share(s, active, open, selected, i, loop)
    {
      var row := active[i];
      if row.loopSeq !in selected {
        continue;
      }
      var bucket := if row.loopSeq in updatesByLoop then updatesByLoop[row.loopSeq] else [];
      var updates := DeliverRow(translator, row, Ended(active, i, open));
      updatesByLoop := updatesByLoop[row.loopSeq := bucket + updates];
    }
  }

  /** Drops loops from the far end until what is left fits. */
  method FitPage(window: seq<nat>, updatesByLoop: map<nat, seq<Update>>, cursor: Cursor, limits: Limits,
      size: seq<Update> -> nat, ghost sizes: Sizes)
    returns (page: seq<nat>)
    requires forall loop: nat :: loop in window ==> size(Bucket(updatesByLoop, loop)) == sizes(loop)
    ensures page == Fitted(window, cursor, limits, sizes)
  {
    page := window;
    if cursor.Exact? || !(limits.historyPageChars.Some? && limits.historyPageChars.value > 0) || |window| <= 1 {
      return;
    }
    var budget := limits.historyPageChars.value;
    var totalChars := 0;
    for i := 0 to |window|
      invariant totalChars == Total(window[..i], sizes)
    {
      TotalGrows(window, i, sizes);
      totalChars := totalChars + size(Bucket(updatesByLoop, window[i]));
    }
    assert window[..|window|] == window;
    if cursor.After? {
      var n := |window|;
      while n > 1 && totalChars > budget
        invariant 1 <= n <= |window|
        invariant totalChars == Total(window[..n], sizes)
        invariant DropNewest(window[..n], sizes, budget) == DropNewest(window, sizes, budget)
      {
        TotalGrows(window, n - 1, sizes);
        assert window[..n][..n - 1] == window[..n - 1];
        totalChars := totalChars - size(Bucket(updatesByLoop, window[n - 1]));
        n := n - 1;
      }
      page := window[..n];
    } else {
      var i := 0;
      assert window[0..] == window;
      while i < |window| - 1 && totalChars > budget
        invariant 0 <= i < |window|
        invariant totalChars == Total(window[i..], sizes)
        invariant DropOldest(window[i..], sizes, budget) == DropOldest(window, sizes, budget)
      {
        assert window[i..][1..] == window[i + 1..];
        totalChars := totalChars - size(Bucket(updatesByLoop, window[i]));
        i := i + 1;
      }
      page := window[i..];
    }
  }

  lemma {:induction false} TotalGrows(loops: seq<nat>, n: nat, sizes: Sizes)
    requires n < |loops|
    ensures Total(loops[..n + 1], sizes) == Total(loops[..n], sizes) + sizes(loops[n])
    decreases n
  {
    if n > 0 {
      TotalGrows(loops[1..], n - 1, sizes);
      assert loops[..n + 1][1..] == loops[1..][..n] && loops[..n][1..] == loops[1..][..n - 1];
    } else {
      assert loops[..1][1..] == [];
    }
  }

  method JoinPage(page: seq<nat>, updatesByLoop: map<nat, seq<Update>>, ghost show: nat -> seq<Update>)
    returns (updates: seq<Update>)
    requires forall loop: nat :: loop in page ==> Bucket(updatesByLoop, loop) == show(loop)
    ensures updates == Concat(page, show)
  {
    updates := [];
    assert page[0..] == page;
    for i := 0 to |page|
      invariant updates + Concat(page[i..], show) == Concat(page, show)
    {
      assert page[i] in page && page[i..][0] == page[i] && page[i..][1..] == page[i + 1..];
      assert Concat(page[i..], show) == show(page[i]) + Concat(page[i + 1..], show);
      JoinsOn(updates, show(page[i]), Concat(page[i + 1..], show));
      updates := updates + Bucket(updatesByLoop, page[i]);
    }
    assert page[|page|..] == [];
  }

  lemma JoinsOn(a: seq<Update>, b: seq<Update>, c: seq<Update>)
    ensures a + (b + c) == (a + b) + c
  {
  }

  /** The loops a request may show, before their sizes are known. */
  function Selected(active: seq<Row>, options: Options): seq<nat> {
    Window(Candidates(LoopsOf(active), options.cursor), options.cursor, options.limits)
  }

  /** The page of the table of loops that shows `show`, with its links. */
  function PageOf(active: seq<Row>, options: Options, show: nat -> seq<Update>, size: seq<Update> -> nat): Result {
    var page := Page(LoopsOf(active), options.cursor, options.limits, SizesOf(show, size));
    Result(Concat(page, show), Older(LoopsOf(active), page), Newer(LoopsOf(active), page))
  }

  /** One page of history: its loops are the page of the whole table of loops, each shown as the translator, wherever it
      stands, translates the selected rows in order, with the links of that page. */
  method ReplaySessionHistory(translator: SessionTranslator, rows: seq<Row>, options: Options, size: seq<Update> -> nat)
    returns (r: Result)
    modifies translator
    ensures var s, active, open := old(translator.Now()), Active(rows), options.openStreamTargets;
      && r == PageOf(active, options, Shares(s, active, open, Selected(active, options)), size)
      && translator.Now() == Standing(s, active, open, Selected(active, options), |active|)
  {
    var active := Active(rows);
    var allLoopSeqs := LoopsOf(active);
    var candidateSeqs := Candidates(allLoopSeqs, options.cursor);
    var window := Window(candidateSeqs, options.cursor, options.limits);
    ghost var show := Shares(translator.Now(), active, options.openStreamTargets, window);
    var updatesByLoop := TranslateLoops(translator, active, options.openStreamTargets, window);
    ghost var sizes := SizesOf(show, size);
    var page := FitPage(window, updatesByLoop, options.cursor, options.limits, size, sizes);
    FittedLies(window, options.cursor, options.limits, sizes);
    var updates := JoinPage(page, updatesByLoop, show);
    r := Result(updates, Older(allLoopSeqs, page), Newer(allLoopSeqs, page));
  }

  lemma {:induction false} FittedLies(window: seq<nat>, cursor: Cursor, limits: Limits, sizes: Sizes)
    ensures forall loop :: loop in Fitted(window, cursor, limits, sizes) ==> loop in window
  {
    if Limited(limits.historyPageChars) {
      var lo := EndThatFits(window, 0, |window|, sizes, limits.historyPageChars.value);
      var hi := StartThatFits(window, 0, |window|, sizes, limits.historyPageChars.value);
      assert window[0..|window|] == window;
    }
  }

  /** What a loop shows is one piece of the page, in its place among the loops. */
  lemma {:induction false} ShareOfPage(page: seq<nat>, show: nat -> seq<Update>, k: nat)
    requires k < |page|
    ensures Concat(page, show) == Concat(page[..k], show) + show(page[k]) + Concat(page[k + 1..], show)
    decreases k
  {
    if k == 0 {
      assert page[..0] == [];
    } else {
      ShareOfPage(page[1..], show, k - 1);
      assert page[1..][..k - 1] == page[..k][1..] && page[1..][k..] == page[k + 1..] && page[1..][k - 1] == page[k];
      var a, b, c, d := show(page[0]), Concat(page[..k][1..], show), show(page[k]), Concat(page[k + 1..], show);
      assert a + (b + c + d) == (a + b) + c + d;
    }
  }

  /** Reading the history page by page, newest first, through a new translator each time, shows what one replay without
      limits shows. */
  lemma PagesMakeTheHistory(rows: seq<Row>, open: Option<set<string>>, sessionId: int, size: seq<Update> -> nat,
      limits: Limits, requests: nat)
    requires requests > |LoopsOf(Active(rows))|
    ensures var show, loops := ShownAlone(Active(rows), open, sessionId), LoopsOf(Active(rows));
      var w := WalkOlder(seq(requests, _ => Table(loops, SizesOf(show, size))), Latest, limits);
      && w.finished
      && Concat(Backwards(w.pages), show)
           == Concat(Page(loops, Latest, Limits(None, None), SizesOf(show, size)), show)
  {
    ActiveKeeps(rows);
    LoopsInOrder(Active(rows));
    var show, loops := ShownAlone(Active(rows), open, sessionId), LoopsOf(Active(rows));
    OlderVisitsEveryLoopOnce(seq(requests, _ => Table(loops, SizesOf(show, size))), limits);
    WholePage(loops, SizesOf(show, size));
  }

  lemma WholePage(loops: seq<nat>, sizes: Sizes)
    requires Increasing(loops)
    ensures Page(loops, Latest, Limits(None, None), sizes) == loops
  {
    var hi := AdmittedBefore(loops, Latest);
    assert hi < |loops| ==> Admits(Latest, loops[hi]);
    assert loops[..hi] == loops;
  }
}
