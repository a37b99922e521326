/** Which loops one page of history shows, and what following its links visits (plurnk-acp/src/replay.ts). Loops are
    named by their increasing sequence numbers; a loop's size is how long its updates are once serialized. */
module Paging {

  import opened Optional

  datatype Cursor = Latest | Before(loopSeq: int) | After(loopSeq: int) | Exact(loopSeq: int)

  datatype Limits = Limits(historyLoops: Option<int>, historyPageChars: Option<int>)

  type Sizes = nat -> nat

  ghost predicate Increasing(loops: seq<nat>) {
    forall i, j :: 0 <= i < j < |loops| ==> loops[i] < loops[j]
  }

  // ----- the page -----

  predicate Admits(cursor: Cursor, loop: nat) {
    match cursor
    case Latest => true
    case Before(b) => loop < b
    case After(a) => loop > a
    case Exact(x) => loop == x
  }

  function Candidates(loops: seq<nat>, cursor: Cursor): seq<nat>
    decreases |loops|
  {
    if loops == [] then []
    else (if Admits(cursor, loops[0]) then [loops[0]] else []) + Candidates(loops[1..], cursor)
  }

  predicate Limited(limit: Option<int>) {
    limit.Some? && limit.value > 0
  }

  /** At most `historyLoops` candidates: the oldest ones after a cursor, the newest ones otherwise. */
  function Window(candidates: seq<nat>, cursor: Cursor, limits: Limits): seq<nat> {
    if cursor.Exact? || !Limited(limits.historyLoops) || |candidates| <= limits.historyLoops.value then candidates
    else if cursor.After? then candidates[..limits.historyLoops.value]
    else candidates[|candidates| - limits.historyLoops.value..]
  }

  function Total(loops: seq<nat>, size: Sizes): nat
    decreases |loops|
  {
    if loops == [] then 0 else size(loops[0]) + Total(loops[1..], size)
  }

  /** Without its oldest loops, until the rest fits or one loop is left. */
  function DropOldest(loops: seq<nat>, size: Sizes, budget: int): seq<nat>
    decreases |loops|
  {
    if |loops| <= 1 || Total(loops, size) <= budget then loops else DropOldest(loops[1..], size, budget)
  }

  /** Without its newest loops, until the rest fits or one loop is left. */
  function DropNewest(loops: seq<nat>, size: Sizes, budget: int): seq<nat>
    decreases |loops|
  {
    if |loops| <= 1 || Total(loops, size) <= budget then loops else DropNewest(loops[..|loops| - 1], size, budget)
  }

  function Fitted(window: seq<nat>, cursor: Cursor, limits: Limits, size: Sizes): seq<nat> {
    if cursor.Exact? || !Limited(limits.historyPageChars) then window
    else if cursor.After? then DropNewest(window, size, limits.historyPageChars.value)
    else DropOldest(window, size, limits.historyPageChars.value)
  }

  function Page(loops: seq<nat>, cursor: Cursor, limits: Limits, size: Sizes): seq<nat> {
    Fitted(Window(Candidates(loops, cursor), cursor, limits), cursor, limits, size)
  }

  /** The cursor to the page before, when there are loops before it. */
  function Older(loops: seq<nat>, page: seq<nat>): Option<nat> {
    if page != [] && exists loop :: loop in loops && loop < page[0] then Some(page[0]) else None
  }

  /** The cursor to the page after. */
  function Newer(loops: seq<nat>, page: seq<nat>): Option<nat> {
    if page != [] && exists loop :: loop in loops && loop > page[|page| - 1] then Some(page[|page| - 1]) else None
  }

  // ----- its shape -----

  /** Before a cursor, and without one, the admitted loops are the first ones. */
  lemma {:induction false} AdmittedBefore(loops: seq<nat>, cursor: Cursor) returns (hi: nat)
    requires Increasing(loops) && (cursor.Latest? || cursor.Before?)
    ensures hi <= |loops| && Candidates(loops, cursor) == loops[..hi]
    ensures forall i :: 0 <= i < |loops| ==> (i < hi <==> Admits(cursor, loops[i]))
    decreases |loops|
  {
    hi := 0;
    if loops != [] {
      var rest := loops[1..];
      var h := AdmittedBefore(rest, cursor);
      assert forall i :: 1 <= i < |loops| ==> loops[i] == rest[i - 1];
      if Admits(cursor, loops[0]) {
        hi := h + 1;
        assert loops[..hi] == [loops[0]] + rest[..h];
      }
    }
  }

  /** After a cursor they are the last ones. */
  lemma {:induction false} AdmittedAfter(loops: seq<nat>, cursor: Cursor) returns (lo: nat)
    requires Increasing(loops) && cursor.After?
    ensures lo <= |loops| && Candidates(loops, cursor) == loops[lo..]
    ensures forall i :: 0 <= i < |loops| ==> (lo <= i <==> Admits(cursor, loops[i]))
    decreases |loops|
  {
    lo := 0;
    if loops != [] {
      var rest := loops[1..];
      var l := AdmittedAfter(rest, cursor);
      assert forall i :: 1 <= i < |loops| ==> loops[i] == rest[i - 1];
      if Admits(cursor, loops[0]) {
        assert l == 0 && rest[0..] == rest;
        assert loops[0..] == [loops[0]] + rest;
      } else {
        lo := l + 1;
        assert loops[lo..] == rest[l..];
      }
    }
  }

  lemma {:induction false} AdmittedExactly(loops: seq<nat>, x: int)
    requires Increasing(loops)
    ensures |Candidates(loops, Exact(x))| <= 1
    ensures forall loop :: loop in Candidates(loops, Exact(x)) <==> loop in loops && loop == x
    decreases |loops|
  {
    if loops != [] {
      var rest := loops[1..];
      AdmittedExactly(rest, x);
      assert forall loop :: loop in loops <==> loop == loops[0] || loop in rest;
      if loops[0] == x {
        assert forall k :: 0 <= k < |rest| ==> rest[k] == loops[k + 1] && rest[k] > loops[0];
        assert loops[0] !in rest;
        var later := Candidates(rest, Exact(x));
        assert |later| == 0 || later[0] in later;
      }
    }
  }

  /** Dropping the oldest of a run leaves the longest end of it that fits, or one loop. */
  lemma {:induction false} EndThatFits(loops: seq<nat>, w: nat, hi: nat, size: Sizes, budget: int) returns (lo: nat)
    requires w <= hi <= |loops|
    ensures w <= lo <= hi && DropOldest(loops[w..hi], size, budget) == loops[lo..hi]
    ensures w < hi ==> lo < hi
    ensures hi - lo > 1 ==> Total(loops[lo..hi], size) <= budget
    ensures forall k: nat :: w <= k < lo ==> Total(loops[k..hi], size) > budget
    decreases hi - w
  {
    lo := w;
    if hi - w > 1 && Total(loops[w..hi], size) > budget {
      lo := EndThatFits(loops, w + 1, hi, size, budget);
      assert loops[w..hi][1..] == loops[w + 1..hi];
    }
  }

  /** Dropping the newest leaves the longest beginning that fits, or one loop. */
  lemma {:induction false} StartThatFits(loops: seq<nat>, lo: nat, w: nat, size: Sizes, budget: int) returns (hi: nat)
    requires lo <= w <= |loops|
    ensures lo <= hi <= w && DropNewest(loops[lo..w], size, budget) == loops[lo..hi]
    ensures lo < w ==> lo < hi
    ensures hi - lo > 1 ==> Total(loops[lo..hi], size) <= budget
    ensures forall k: nat :: hi < k <= w ==> Total(loops[lo..k], size) > budget
    decreases w - lo
  {
    hi := w;
    if w - lo > 1 && Total(loops[lo..w], size) > budget {
      hi := StartThatFits(loops, lo, w - 1, size, budget);
      assert loops[lo..w][..w - lo - 1] == loops[lo..w - 1];
    }
  }

  /** A page not bound to one loop is a run of the loops its cursor admits: it is empty only when they are none, holds
      at most `historyLoops` of them, and reaches as far from the cursor as that limit and the character budget allow,
      one loop at least. Before a cursor, and at the end of the history, it lies at the newest admitted loop. */
  lemma PageBefore(loops: seq<nat>, cursor: Cursor, limits: Limits, size: Sizes) returns (lo: nat, hi: nat)
    requires Increasing(loops) && (cursor.Latest? || cursor.Before?)
    ensures lo <= hi <= |loops| && Page(loops, cursor, limits, size) == loops[lo..hi]
    ensures forall i :: 0 <= i < |loops| ==> (i < hi <==> Admits(cursor, loops[i]))
    ensures hi > 0 ==> lo < hi
    ensures Limited(limits.historyLoops) ==> hi - lo <= limits.historyLoops.value
    ensures Limited(limits.historyPageChars) ==> hi - lo <= 1 || Total(loops[lo..hi], size) <= limits.historyPageChars.value
    ensures forall k: nat :: k < lo && !(Limited(limits.historyLoops) && hi - k > limits.historyLoops.value) ==>
              Limited(limits.historyPageChars) && Total(loops[k..hi], size) > limits.historyPageChars.value
  {
    hi := AdmittedBefore(loops, cursor);
    var w: nat := if Limited(limits.historyLoops) && hi > limits.historyLoops.value then hi - limits.historyLoops.value else 0;
    assert Window(loops[..hi], cursor, limits) == loops[w..hi];
    lo := w;
    if Limited(limits.historyPageChars) {
      lo := EndThatFits(loops, w, hi, size, limits.historyPageChars.value);
    }
  }

  /** After a cursor the page lies at the oldest admitted loop. */
  lemma PageAfter(loops: seq<nat>, cursor: Cursor, limits: Limits, size: Sizes) returns (lo: nat, hi: nat)
    requires Increasing(loops) && cursor.After?
    ensures lo <= hi <= |loops| && Page(loops, cursor, limits, size) == loops[lo..hi]
    ensures forall i :: 0 <= i < |loops| ==> (lo <= i <==> Admits(cursor, loops[i]))
    ensures lo < |loops| ==> lo < hi
    ensures Limited(limits.historyLoops) ==> hi - lo <= limits.historyLoops.value
    ensures Limited(limits.historyPageChars) ==> hi - lo <= 1 || Total(loops[lo..hi], size) <= limits.historyPageChars.value
    ensures forall k: nat :: hi < k <= |loops| && !(Limited(limits.historyLoops) && k - lo > limits.historyLoops.value) ==>
              Limited(limits.historyPageChars) && Total(loops[lo..k], size) > limits.historyPageChars.value
  {
    lo := AdmittedAfter(loops, cursor);
    var w: nat := if Limited(limits.historyLoops) && |loops| - lo > limits.historyLoops.value then lo + limits.historyLoops.value else |loops|;
    assert Window(loops[lo..], cursor, limits) == loops[lo..w];
    hi := w;
    if Limited(limits.historyPageChars) {
      hi := StartThatFits(loops, lo, w, size, limits.historyPageChars.value);
    }
  }

  /** A page bound to one loop is that loop, or nothing when there is none, whatever the limits. */
  lemma PageExact(loops: seq<nat>, x: int, limits: Limits, size: Sizes)
    requires Increasing(loops)
    ensures forall loop :: loop in Page(loops, Exact(x), limits, size) <==> loop in loops && loop == x
    ensures |Page(loops, Exact(x), limits, size)| <= 1
  {
    AdmittedExactly(loops, x);
  }

  /** The links a page carries: an older one exactly when loops come before it, a newer one exactly when some come
      after. */
  lemma LinksExactly(loops: seq<nat>, lo: nat, hi: nat)
    requires Increasing(loops) && lo <= hi <= |loops|
    ensures Older(loops, loops[lo..hi]) == if lo < hi && lo > 0 then Some(loops[lo]) else None
    ensures Newer(loops, loops[lo..hi]) == if lo < hi && hi < |loops| then Some(loops[hi - 1]) else None
  {
    var page := loops[lo..hi];
    if lo < hi {
      assert page[0] == loops[lo] && page[|page| - 1] == loops[hi - 1];
      if lo > 0 {
        assert loops[0] in loops && loops[0] < page[0];
      } else {
        assert forall loop :: loop in loops ==> loop >= loops[0];
      }
      if hi < |loops| {
        assert loops[hi] in loops && loops[hi] > loops[hi - 1];
      } else {
        assert forall loop :: loop in loops ==> loop <= loops[hi - 1];
      }
    }
  }

  // ----- following the links -----

  /** The history as one request finds it. */
  datatype Table = Table(loops: seq<nat>, size: Sizes)

  /** Between requests loops may be added at the end of the history. */
  ghost predicate Growing(tables: seq<Table>) {
    && (forall k :: 0 <= k < |tables| ==> Increasing(tables[k].loops))
    && forall j, k :: 0 <= j < k < |tables| ==> tables[j].loops <= tables[k].loops
  }

  /** The pages a client sees, and whether it came to one without the link it follows. */
  datatype Walk = Walk(pages: seq<seq<nat>>, finished: bool)

  function WalkOlder(tables: seq<Table>, cursor: Cursor, limits: Limits): Walk
    decreases |tables|
  {
    if tables == [] then Walk([], false)
    else
      var page := Page(tables[0].loops, cursor, limits, tables[0].size);
      var older := Older(tables[0].loops, page);
      if older.None? then Walk([page], true)
      else
        var rest := WalkOlder(tables[1..], Before(older.value), limits);
        Walk([page] + rest.pages, rest.finished)
  }

  function WalkNewer(tables: seq<Table>, cursor: Cursor, limits: Limits): Walk
    decreases |tables|
  {
    if tables == [] then Walk([], false)
    else
      var page := Page(tables[0].loops, cursor, limits, tables[0].size);
      var newer := Newer(tables[0].loops, page);
      if newer.None? then Walk([page], true)
      else
        var rest := WalkNewer(tables[1..], After(newer.value), limits);
        Walk([page] + rest.pages, rest.finished)
  }

  /** The loops of all pages, the last page first. */
  function Backwards(pages: seq<seq<nat>>): seq<nat>
    decreases |pages|
  {
    if pages == [] then [] else Backwards(pages[1..]) + pages[0]
  }

  function Forwards(pages: seq<seq<nat>>): seq<nat>
    decreases |pages|
  {
    if pages == [] then [] else pages[0] + Forwards(pages[1..])
  }

  lemma OneMore(page: seq<nat>, pages: seq<seq<nat>>)
    ensures Backwards([page] + pages) == Backwards(pages) + page
    ensures Forwards([page] + pages) == page + Forwards(pages)
    ensures Backwards([page]) == page && Forwards([page]) == page
  {
    var all, only := [page] + pages, [page];
    assert all[1..] == pages && |only[1..]| == 0;
  }

  lemma LaterTables(tables: seq<Table>)
    requires Growing(tables) && |tables| > 1
    ensures Growing(tables[1..]) && tables[0].loops <= tables[1..][0].loops
  {
    var rest := tables[1..];
    assert forall k :: 0 <= k < |rest| ==> rest[k] == tables[k + 1];
  }

  lemma HeadsJoin(loops: seq<nat>, later: seq<nat>, lo: nat, hi: nat)
    requires lo <= hi <= |loops| && loops <= later
    ensures later[..lo] + loops[lo..hi] == loops[..hi]
  {
  }

  lemma TailsJoin(loops: seq<nat>, later: seq<nat>, lo: nat, hi: nat)
    requires lo <= hi <= |loops| && loops <= later
    ensures loops[lo..hi] + later[hi..] == later[lo..]
  {
  }

  lemma SameCount(loops: seq<nat>, cursor: Cursor, a: nat, b: nat)
    requires a <= |loops| && b <= |loops|
    requires forall i :: 0 <= i < |loops| ==> (i < a <==> Admits(cursor, loops[i]))
    requires forall i :: 0 <= i < |loops| ==> (i < b <==> Admits(cursor, loops[i]))
    ensures a == b
  {
    var i := if a < b then a else b;
    assert i < |loops| ==> (i < a <==> Admits(cursor, loops[i]));
  }

  /** The first page back from a cursor that admits the first `hi` loops. */
  lemma OlderPage(tables: seq<Table>, cursor: Cursor, limits: Limits, hi: nat) returns (lo: nat)
    requires tables != [] && Increasing(tables[0].loops) && (cursor.Latest? || cursor.Before?) && hi <= |tables[0].loops|
    requires forall i :: 0 <= i < |tables[0].loops| ==> (i < hi <==> Admits(cursor, tables[0].loops[i]))
    ensures lo <= hi && (hi > 0 ==> lo < hi)
    ensures WalkOlder(tables, cursor, limits) ==
      var page := tables[0].loops[lo..hi];
      if lo == 0 then Walk([page], true)
      else
        var rest := WalkOlder(tables[1..], Before(tables[0].loops[lo]), limits);
        Walk([page] + rest.pages, rest.finished)
  {
    var h;
    lo, h := PageBefore(tables[0].loops, cursor, limits, tables[0].size);
    SameCount(tables[0].loops, cursor, hi, h);
    LinksExactly(tables[0].loops, lo, hi);
  }

  /** From a cursor that admits the first `hi` loops, the older pages lie one before the other down to the first loop. */
  lemma {:induction false} OlderTiles(tables: seq<Table>, cursor: Cursor, limits: Limits, hi: nat)
    requires tables != [] && Growing(tables) && (cursor.Latest? || cursor.Before?) && hi <= |tables[0].loops|
    requires forall i :: 0 <= i < |tables[0].loops| ==> (i < hi <==> Admits(cursor, tables[0].loops[i]))
    ensures hi < |tables| ==> WalkOlder(tables, cursor, limits).finished
    ensures WalkOlder(tables, cursor, limits).finished ==>
              Backwards(WalkOlder(tables, cursor, limits).pages) == tables[0].loops[..hi]
    decreases |tables|
  {
    var loops := tables[0].loops;
    var lo := OlderPage(tables, cursor, limits, hi);
    var page := loops[lo..hi];
    OneMore(page, []);
    if lo > 0 && |tables| > 1 {
      var rest := tables[1..];
      LaterTables(tables);
      BelowOne(rest[0].loops, lo);
      OlderTiles(rest, Before(loops[lo]), limits, lo);
      HeadsJoin(loops, rest[0].loops, lo, hi);
      OneMore(page, WalkOlder(rest, Before(loops[lo]), limits).pages);
    }
  }

  lemma BelowOne(loops: seq<nat>, lo: nat)
    requires Increasing(loops) && lo < |loops|
    ensures forall i :: 0 <= i < |loops| ==> (i < lo <==> Admits(Before(loops[lo]), loops[i]))
    ensures forall i :: 0 <= i < |loops| ==> (lo + 1 <= i <==> Admits(After(loops[lo]), loops[i]))
  {
    forall i | 0 <= i < |loops|
      ensures i < lo <==> Admits(Before(loops[lo]), loops[i])
      ensures lo + 1 <= i <==> Admits(After(loops[lo]), loops[i])
    {
      if i < lo {
        assert loops[i] < loops[lo];
      } else if i > lo {
        assert loops[lo] < loops[i];
      }
    }
  }

  /** Following the older links from the newest page visits every loop there was at the first request exactly once, in
      order, and stops, whatever loops are added meanwhile and however long the loops are at each request. */
  lemma OlderVisitsEveryLoopOnce(tables: seq<Table>, limits: Limits)
    requires Growing(tables) && tables != [] && |tables| > |tables[0].loops|
    ensures var w := WalkOlder(tables, Latest, limits); w.finished && Backwards(w.pages) == tables[0].loops
  {
    var loops := tables[0].loops;
    OlderTiles(tables, Latest, limits, |loops|);
    assert loops[..|loops|] == loops;
  }

  lemma SameStart(loops: seq<nat>, cursor: Cursor, a: nat, b: nat)
    requires a <= |loops| && b <= |loops|
    requires forall i :: 0 <= i < |loops| ==> (a <= i <==> Admits(cursor, loops[i]))
    requires forall i :: 0 <= i < |loops| ==> (b <= i <==> Admits(cursor, loops[i]))
    ensures a == b
  {
    var i := if a < b then a else b;
    assert i < |loops| ==> (a <= i <==> Admits(cursor, loops[i]));
  }

  /** The first page on from a cursor past the first `lo` loops. */
  lemma NewerPage(tables: seq<Table>, a: int, limits: Limits, lo: nat) returns (hi: nat)
    requires tables != [] && Increasing(tables[0].loops) && lo <= |tables[0].loops|
    requires forall i :: 0 <= i < |tables[0].loops| ==> (lo <= i <==> Admits(After(a), tables[0].loops[i]))
    ensures lo <= hi <= |tables[0].loops| && (lo < |tables[0].loops| ==> lo < hi)
    ensures WalkNewer(tables, After(a), limits) ==
      var page := tables[0].loops[lo..hi];
      if hi == |tables[0].loops| then Walk([page], true)
      else
        var rest := WalkNewer(tables[1..], After(tables[0].loops[hi - 1]), limits);
        Walk([page] + rest.pages, rest.finished)
  {
    var l;
    l, hi := PageAfter(tables[0].loops, After(a), limits, tables[0].size);
    SameStart(tables[0].loops, After(a), lo, l);
    LinksExactly(tables[0].loops, lo, hi);
  }

  /** The pages of a walk lie one after the other from position `lo` up to the last loop found, and enough requests
      finish it. */
  ghost predicate TilesFrom(tables: seq<Table>, w: Walk, lo: nat)
    requires tables != []
  {
    && 0 < |w.pages| <= |tables|
    && (|tables[|tables| - 1].loops| - lo < |tables| ==> w.finished)
    && (w.finished ==>
          var found := tables[|w.pages| - 1].loops;
          lo <= |found| && Forwards(w.pages) == found[lo..])
  }

  lemma TilesExtend(tables: seq<Table>, w: Walk, lo: nat, hi: nat)
    requires Growing(tables) && |tables| > 1 && lo < hi < |tables[0].loops| && TilesFrom(tables[1..], w, hi)
    ensures TilesFrom(tables, Walk([tables[0].loops[lo..hi]] + w.pages, w.finished), lo)
  {
    var loops, k := tables[0].loops, |w.pages|;
    OneMore(loops[lo..hi], w.pages);
    assert tables[1..][k - 1] == tables[k];
    assert loops <= tables[k].loops;
    TailsJoin(loops, tables[k].loops, lo, hi);
  }

  lemma TilesEnd(tables: seq<Table>, lo: nat, hi: nat, pages: seq<seq<nat>>)
    requires tables != [] && lo <= hi <= |tables[0].loops| && pages == [tables[0].loops[lo..hi]]
    ensures hi == |tables[0].loops| ==> TilesFrom(tables, Walk(pages, true), lo)
    ensures |tables| == 1 && lo < hi < |tables[0].loops| ==> TilesFrom(tables, Walk(pages, false), lo)
  {
    OneMore(tables[0].loops[lo..hi], []);
  }

  /** From a cursor past the first `lo` loops. */
  lemma {:induction false} NewerTiles(tables: seq<Table>, a: int, limits: Limits, lo: nat)
    requires tables != [] && Growing(tables) && lo <= |tables[0].loops|
    requires forall i :: 0 <= i < |tables[0].loops| ==> (lo <= i <==> Admits(After(a), tables[0].loops[i]))
    ensures TilesFrom(tables, WalkNewer(tables, After(a), limits), lo)
    decreases |tables|
  {
    var loops := tables[0].loops;
    var hi := NewerPage(tables, a, limits, lo);
    TilesEnd(tables, lo, hi, [loops[lo..hi]] + []);
    if hi < |loops| && |tables| > 1 {
      var rest := tables[1..];
      LaterTables(tables);
      BelowOne(rest[0].loops, hi - 1);
      NewerTiles(rest, loops[hi - 1], limits, hi);
      TilesExtend(tables, WalkNewer(rest, After(loops[hi - 1]), limits), lo, hi);
    }
  }

  /** Following the newer links from a loop visits every later loop exactly once, in order, up to the newest one found by
      the last request, and stops once the history stops growing. */
  lemma NewerVisitsEveryLoopOnce(tables: seq<Table>, from: nat, limits: Limits)
    requires Growing(tables) && tables != [] && from < |tables[0].loops|
    requires |tables| > |tables[|tables| - 1].loops|
    ensures var w := WalkNewer(tables, After(tables[0].loops[from]), limits);
      && w.finished && 0 < |w.pages| <= |tables| && from < |tables[|w.pages| - 1].loops|
      && Forwards(w.pages) == tables[|w.pages| - 1].loops[from + 1..]
  {
    BelowOne(tables[0].loops, from);
    NewerTiles(tables, tables[0].loops[from], limits, from + 1);
  }
}
