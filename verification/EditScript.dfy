/** Line edit scripts: the dynamic-programming table, the greedy walk over it, and the trimming of the
    common prefix and suffix around it. */
module EditScript {
  import opened Lcs
  import opened TextLines

  datatype Op = Keep(text: Line) | Del(text: Line) | Add(text: Line)

  /** The lines of the old file a script accounts for, in order. */
  function OldSide(ops: seq<Op>): seq<Line> {
    if ops == [] then []
    else if ops[0].Add? then OldSide(ops[1..])
    else [ops[0].text] + OldSide(ops[1..])
  }

  /** The lines of the new file a script accounts for, in order. */
  function NewSide(ops: seq<Op>): seq<Line> {
    if ops == [] then []
    else if ops[0].Del? then NewSide(ops[1..])
    else [ops[0].text] + NewSide(ops[1..])
  }

  function Kept(ops: seq<Op>): seq<Line> {
    if ops == [] then []
    else if ops[0].Keep? then [ops[0].text] + Kept(ops[1..])
    else Kept(ops[1..])
  }

  /** How many lines a script deletes or adds. */
  function Changes(ops: seq<Op>): nat {
    if ops == [] then 0 else (if ops[0].Keep? then 0 else 1) + Changes(ops[1..])
  }

  ghost predicate Transforms(ops: seq<Op>, old_: seq<Line>, new_: seq<Line>) {
    OldSide(ops) == old_ && NewSide(ops) == new_
  }

  /** In every run of changes the deletions come first: no added line is directly followed by a deleted one. */
  ghost predicate DeletionsFirst(ops: seq<Op>) {
    forall k :: 0 <= k < |ops| - 1 && ops[k].Add? ==> !ops[k + 1].Del?
  }

  lemma {:induction false} OldSideConcat(x: seq<Op>, y: seq<Op>)
    ensures OldSide(x + y) == OldSide(x) + OldSide(y)
  {
    if x == [] {
      assert x + y == y;
    } else {
      OldSideConcat(x[1..], y);
      assert (x + y)[1..] == x[1..] + y;
      assert [x[0].text] + (OldSide(x[1..]) + OldSide(y)) == ([x[0].text] + OldSide(x[1..])) + OldSide(y);
    }
  }

  lemma {:induction false} NewSideConcat(x: seq<Op>, y: seq<Op>)
    ensures NewSide(x + y) == NewSide(x) + NewSide(y)
  {
    if x == [] {
      assert x + y == y;
    } else {
      NewSideConcat(x[1..], y);
      assert (x + y)[1..] == x[1..] + y;
      assert [x[0].text] + (NewSide(x[1..]) + NewSide(y)) == ([x[0].text] + NewSide(x[1..])) + NewSide(y);
    }
  }

  lemma {:induction false} KeptConcat(x: seq<Op>, y: seq<Op>)
    ensures Kept(x + y) == Kept(x) + Kept(y)
  {
    if x == [] {
      assert x + y == y;
    } else {
      KeptConcat(x[1..], y);
      assert (x + y)[1..] == x[1..] + y;
      assert [x[0].text] + (Kept(x[1..]) + Kept(y)) == ([x[0].text] + Kept(x[1..])) + Kept(y);
    }
  }

  lemma SidesConcat(x: seq<Op>, y: seq<Op>)
    ensures OldSide(x + y) == OldSide(x) + OldSide(y)
    ensures NewSide(x + y) == NewSide(x) + NewSide(y)
    ensures Kept(x + y) == Kept(x) + Kept(y)
  {
    OldSideConcat(x, y);
    NewSideConcat(x, y);
    KeptConcat(x, y);
  }

  /** The lines any script keeps are a common subsequence of its two files, and what it does not keep it changes. */
  lemma {:induction false} KeptIsCommon(ops: seq<Op>)
    ensures CommonSubsequence(Kept(ops), OldSide(ops), NewSide(ops))
    ensures Changes(ops) + 2 * |Kept(ops)| == |OldSide(ops)| + |NewSide(ops)|
  {
    if ops != [] {
      var rest, text := ops[1..], ops[0].text;
      KeptIsCommon(rest);
      SubsequenceCons(text, Kept(rest), OldSide(rest));
      SubsequenceCons(text, Kept(rest), NewSide(rest));
    }
  }

  /** `ops` turns `old_` into `new_` and keeps as many lines as any common subsequence of the two has. */
  ghost predicate Optimal(ops: seq<Op>, old_: seq<Line>, new_: seq<Line>) {
    && Transforms(ops, old_, new_)
    && forall c :: CommonSubsequence(c, old_, new_) ==> |c| <= |Kept(ops)|
  }

  /** An optimal script is a shortest one: every script between the same files changes at least as many lines. */
  lemma OptimalIsShortest(ops: seq<Op>, other: seq<Op>, old_: seq<Line>, new_: seq<Line>)
    requires Optimal(ops, old_, new_) && Transforms(other, old_, new_)
    ensures Changes(ops) <= Changes(other)
  {
    KeptIsCommon(ops);
    KeptIsCommon(other);
  }

  // ----- the table -----

  /** The flat index of cell (i, j) in a table of rows of `width` cells. */
  function At(i: nat, j: nat, width: nat): nat {
    i * width + j
  }

  lemma AtIsInjective(i: nat, j: nat, p: nat, q: nat, width: nat)
    requires j < width && q < width
    ensures At(i, j, width) == At(p, q, width) ==> i == p && j == q
  {
    if i < p {
      assert p * width >= (i + 1) * width == i * width + width;
    } else if p < i {
      assert i * width >= (p + 1) * width == p * width + width;
    }
  }

  lemma AtIsInRange(i: nat, j: nat, rows: nat, width: nat)
    requires i < rows && j < width
    ensures At(i, j, width) < rows * width
  {
    assert rows * width >= (i + 1) * width == i * width + width;
  }

  /** Cell (i, j) holds the exact length for the suffixes starting there. */
  ghost predicate Exact(table: seq<int>, a: seq<Line>, b: seq<Line>, i: nat, j: nat) {
    && i <= |a| && j <= |b|
    && At(i, j, |b| + 1) < |table|
    && table[At(i, j, |b| + 1)] == Length(a[i..], b[j..])
  }

  ghost predicate RowsExact(table: seq<int>, a: seq<Line>, b: seq<Line>, from: nat) {
    forall p: nat, q: nat :: from <= p <= |a| && q <= |b| ==> Exact(table, a, b, p, q)
  }

  ghost predicate CellsExact(table: seq<int>, a: seq<Line>, b: seq<Line>, i: nat, from: nat) {
    forall q: nat :: from <= q <= |b| ==> Exact(table, a, b, i, q)
  }

  /** The cells past the last line of `b` are exact, row by row. */
  ghost predicate EdgeExact(table: seq<int>, a: seq<Line>, b: seq<Line>) {
    forall p: nat :: p <= |a| ==> Exact(table, a, b, p, |b|)
  }

  lemma WriteCell(table: seq<int>, a: seq<Line>, b: seq<Line>, i: nat, j: nat)
    requires i < |a| && j < |b| && EdgeExact(table, a, b)
    requires At(i, j, |b| + 1) < |table|
    requires RowsExact(table, a, b, i + 1) && CellsExact(table, a, b, i, j + 1)
    ensures var table' := table[At(i, j, |b| + 1) := Length(a[i..], b[j..])];
      RowsExact(table', a, b, i + 1) && CellsExact(table', a, b, i, j) && EdgeExact(table', a, b)
  {
    var w := |b| + 1;
    var table' := table[At(i, j, w) := Length(a[i..], b[j..])];
    forall p: nat, q: nat | i + 1 <= p <= |a| && q <= |b|
      ensures Exact(table', a, b, p, q)
    {
      assert Exact(table, a, b, p, q);
      AtIsInjective(i, j, p, q, w);
    }
    forall q: nat | j <= q <= |b|
      ensures Exact(table', a, b, i, q)
    {
      if q > j {
        assert Exact(table, a, b, i, q);
        AtIsInjective(i, j, i, q, w);
      }
    }
    forall p: nat | p <= |a|
      ensures Exact(table', a, b, p, |b|)
    {
      assert Exact(table, a, b, p, |b|);
      AtIsInjective(i, j, p, |b|, w);
    }
  }

  /** A cell from the three beside and below it. */
  lemma NextCell(table: seq<int>, a: seq<Line>, b: seq<Line>, i: nat, j: nat)
    requires i < |a| && j < |b| && |table| == (|a| + 1) * (|b| + 1)
    requires RowsExact(table, a, b, i + 1) && CellsExact(table, a, b, i, j + 1)
    ensures var w := |b| + 1;
      && At(i, j, w) < |table| && At(i + 1, j + 1, w) < |table| && At(i + 1, j, w) < |table| && At(i, j + 1, w) < |table|
      && Length(a[i..], b[j..]) ==
           if a[i] == b[j] then table[At(i + 1, j + 1, w)] + 1
           else if table[At(i + 1, j, w)] >= table[At(i, j + 1, w)] then table[At(i + 1, j, w)]
           else table[At(i, j + 1, w)]
  {
    AtIsInRange(i, j, |a| + 1, |b| + 1);
    assert Exact(table, a, b, i + 1, j) && Exact(table, a, b, i + 1, j + 1) && Exact(table, a, b, i, j + 1);
    assert a[i..][1..] == a[i + 1..] && b[j..][1..] == b[j + 1..];
  }

  lemma FirstCells(table: seq<int>, a: seq<Line>, b: seq<Line>)
    requires |table| == (|a| + 1) * (|b| + 1) && forall k :: 0 <= k < |table| ==> table[k] == 0
    ensures RowsExact(table, a, b, |a|) && EdgeExact(table, a, b)
  {
    forall p: nat, q: nat | p <= |a| && q <= |b| && (p == |a| || q == |b|)
      ensures Exact(table, a, b, p, q)
    {
      AtIsInRange(p, q, |a| + 1, |b| + 1);
    }
  }

  lemma RowDone(table: seq<int>, a: seq<Line>, b: seq<Line>, i: nat)
    requires RowsExact(table, a, b, i + 1) && CellsExact(table, a, b, i, 0)
    ensures RowsExact(table, a, b, i)
  {
    forall p: nat, q: nat | i <= p <= |a| && q <= |b|
      ensures Exact(table, a, b, p, q)
    {
      assert p == i ==> Exact(table, a, b, i, q);
    }
  }

  /** Fills the table backwards, row by row; every cell ends up exact. */
  method FillTable(a: seq<Line>, b: seq<Line>) returns (dp: array<int>)
    ensures dp.Length == (|a| + 1) * (|b| + 1)
    ensures RowsExact(dp[..], a, b, 0)
  {
    var n, m := |a|, |b|;
    var width := m + 1;
    dp := new int[(n + 1) * width](_ => 0);
    FirstCells(dp[..], a, b);
    for i := n downto 0
      invariant RowsExact(dp[..], a, b, i) && EdgeExact(dp[..], a, b)
    {
      assert CellsExact(dp[..], a, b, i, m);
      for j := m downto 0
        invariant RowsExact(dp[..], a, b, i + 1) && EdgeExact(dp[..], a, b)
        invariant CellsExact(dp[..], a, b, i, j)
      {
        ghost var before := dp[..];
        NextCell(before, a, b, i, j);
        WriteCell(before, a, b, i, j);
        dp[At(i, j, width)] :=
          if a[i] == b[j] then dp[At(i + 1, j + 1, width)] + 1
          else if dp[At(i + 1, j, width)] >= dp[At(i, j + 1, width)] then dp[At(i + 1, j, width)]
          else dp[At(i, j + 1, width)];
        assert dp[..] == before[At(i, j, width) := Length(a[i..], b[j..])];
      }
      RowDone(dp[..], a, b, i);
    }
  }

  // ----- the walk -----

  lemma SidesPush(ops: seq<Op>, op: Op)
    ensures OldSide(ops + [op]) == OldSide(ops) + if op.Add? then [] else [op.text]
    ensures NewSide(ops + [op]) == NewSide(ops) + if op.Del? then [] else [op.text]
    ensures Kept(ops + [op]) == Kept(ops) + if op.Keep? then [op.text] else []
  {
    SidesConcat(ops, [op]);
  }

  /** After an added line, deleting the next old line instead would lose a kept line. */
  ghost predicate AddWasForced(ops: seq<Op>, a: seq<Line>, b: seq<Line>, i: nat, j: nat)
    requires i <= |a| && j <= |b|
  {
    ops != [] && ops[|ops| - 1].Add? && i < |a| ==> Length(a[i + 1..], b[j..]) < Length(a[i..], b[j..])
  }

  /** The walk stands at (i, j): `ops` accounts for the lines before it and can still be completed optimally. */
  ghost predicate Walked(ops: seq<Op>, a: seq<Line>, b: seq<Line>, i: nat, j: nat) {
    && i <= |a| && j <= |b|
    && Transforms(ops, a[..i], b[..j])
    && |Kept(ops)| + Length(a[i..], b[j..]) == Length(a, b)
    && DeletionsFirst(ops)
    && AddWasForced(ops, a, b, i, j)
  }

  lemma WalkKeep(ops: seq<Op>, a: seq<Line>, b: seq<Line>, i: nat, j: nat)
    requires Walked(ops, a, b, i, j) && i < |a| && j < |b| && a[i] == b[j]
    ensures Walked(ops + [Keep(a[i])], a, b, i + 1, j + 1)
  {
    SidesPush(ops, Keep(a[i]));
    assert a[..i + 1] == a[..i] + [a[i]] && b[..j + 1] == b[..j] + [b[j]];
    assert a[i..][1..] == a[i + 1..] && b[j..][1..] == b[j + 1..];
  }

  lemma WalkDel(ops: seq<Op>, a: seq<Line>, b: seq<Line>, i: nat, j: nat)
    requires Walked(ops, a, b, i, j) && i < |a|
    requires j < |b| ==> a[i] != b[j] && Length(a[i + 1..], b[j..]) >= Length(a[i..], b[j + 1..])
    ensures Walked(ops + [Del(a[i])], a, b, i + 1, j)
  {
    SidesPush(ops, Del(a[i]));
    assert a[..i + 1] == a[..i] + [a[i]];
    assert a[i..][1..] == a[i + 1..];
    if j < |b| {
      assert b[j..][1..] == b[j + 1..];
    }
    assert Length(a[i..], b[j..]) == Length(a[i + 1..], b[j..]);
  }

  lemma WalkAdd(ops: seq<Op>, a: seq<Line>, b: seq<Line>, i: nat, j: nat)
    requires Walked(ops, a, b, i, j) && j < |b|
    requires i < |a| ==> a[i] != b[j] && Length(a[i + 1..], b[j..]) < Length(a[i..], b[j + 1..])
    ensures Walked(ops + [Add(b[j])], a, b, i, j + 1)
  {
    SidesPush(ops, Add(b[j]));
    assert b[..j + 1] == b[..j] + [b[j]];
    assert b[j..][1..] == b[j + 1..];
    if i < |a| {
      assert a[i..][1..] == a[i + 1..];
      LengthSteps(a[i + 1..], b[j..]);
    }
    assert Length(a[i..], b[j..]) == Length(a[i..], b[j + 1..]);
  }

  lemma WalkStart(a: seq<Line>, b: seq<Line>)
    ensures Walked([], a, b, 0, 0)
  {
    assert a[0..] == a && b[0..] == b;
  }

  lemma WalkEnd(ops: seq<Op>, a: seq<Line>, b: seq<Line>)
    requires Walked(ops, a, b, |a|, |b|)
    ensures Transforms(ops, a, b) && |Kept(ops)| == Length(a, b) && DeletionsFirst(ops)
  {
    assert a[..|a|] == a && b[..|b|] == b;
  }

  lemma ReadTable(table: seq<int>, a: seq<Line>, b: seq<Line>, i: nat, j: nat)
    requires RowsExact(table, a, b, 0) && i <= |a| && j <= |b|
    ensures At(i, j, |b| + 1) < |table| && table[At(i, j, |b| + 1)] == Length(a[i..], b[j..])
  {
    assert Exact(table, a, b, i, j);
  }

  method ComputeMiddleOps(oldMid: seq<Line>, newMid: seq<Line>) returns (ops: seq<Op>)
    ensures Transforms(ops, oldMid, newMid)
    ensures |Kept(ops)| == Length(oldMid, newMid)
    ensures DeletionsFirst(ops)
  {
    var n, m := |oldMid|, |newMid|;
    var dp := FillTable(oldMid, newMid);
    var width := m + 1;
    ops := [];
    var i, j := 0, 0;
    WalkStart(oldMid, newMid);
    ghost var table := dp[..];
    while i < n && j < m
      invariant i <= n && j <= m && dp[..] == table
      invariant Walked(ops, oldMid, newMid, i, j)
    {
      ReadTable(table, oldMid, newMid, i + 1, j);
      ReadTable(table, oldMid, newMid, i, j + 1);
      if oldMid[i] == newMid[j] {
        WalkKeep(ops, oldMid, newMid, i, j);
        ops := ops + [Keep(oldMid[i])];
        i, j := i + 1, j + 1;
      } else if dp[At(i + 1, j, width)] >= dp[At(i, j + 1, width)] {
        WalkDel(ops, oldMid, newMid, i, j);
        ops := ops + [Del(oldMid[i])];
        i := i + 1;
      } else {
        WalkAdd(ops, oldMid, newMid, i, j);
        ops := ops + [Add(newMid[j])];
        j := j + 1;
      }
    }
    while i < n
      invariant i <= n && j <= m
      invariant Walked(ops, oldMid, newMid, i, j)
      invariant i < n ==> j == m
    {
      WalkDel(ops, oldMid, newMid, i, j);
      ops := ops + [Del(oldMid[i])];
      i := i + 1;
    }
    while j < m
      invariant i == n && j <= m
      invariant Walked(ops, oldMid, newMid, i, j)
    {
      WalkAdd(ops, oldMid, newMid, i, j);
      ops := ops + [Add(newMid[j])];
      j := j + 1;
    }
    WalkEnd(ops, oldMid, newMid);
  }

  // ----- trimming -----

  ghost predicate AllKept(ops: seq<Op>) {
    forall k :: 0 <= k < |ops| ==> ops[k].Keep?
  }

  function Keeps(lines: seq<Line>): seq<Op> {
    seq(|lines|, k requires 0 <= k < |lines| => Keep(lines[k]))
  }

  /** Appends `lines` to a script as kept lines. */
  method PushKeeps(ops: seq<Op>, lines: seq<Line>) returns (r: seq<Op>)
    ensures r == ops + Keeps(lines)
  {
    r := ops;
    for i := 0 to |lines|
      invariant r == ops + Keeps(lines[..i])
    {
      r := r + [Keep(lines[i])];
      assert Keeps(lines[..i + 1]) == Keeps(lines[..i]) + [Keep(lines[i])];
    }
    assert lines[..|lines|] == lines;
  }

  lemma {:induction false} KeepsSides(lines: seq<Line>)
    ensures Transforms(Keeps(lines), lines, lines) && Kept(Keeps(lines)) == lines
  {
    if lines != [] {
      var n := |lines| - 1;
      KeepsSides(lines[..n]);
      assert Keeps(lines) == Keeps(lines[..n]) + [Keep(lines[n])];
      SidesPush(Keeps(lines[..n]), Keep(lines[n]));
      assert lines == lines[..n] + [lines[n]];
    }
  }

  lemma TrimmedIsOptimal(p: seq<Line>, a: seq<Line>, b: seq<Line>, s: seq<Line>, mid: seq<Op>,
                         old_: seq<Line>, new_: seq<Line>, ops: seq<Op>)
    requires Transforms(mid, a, b) && |Kept(mid)| == Length(a, b)
    requires old_ == p + a + s && new_ == p + b + s && ops == Keeps(p) + mid + Keeps(s)
    ensures Optimal(ops, old_, new_)
  {
    KeepsSides(p);
    KeepsSides(s);
    SidesConcat(Keeps(p), mid);
    SidesConcat(Keeps(p) + mid, Keeps(s));
    forall c | CommonSubsequence(c, old_, new_)
      ensures |c| <= |Kept(ops)|
    {
      TrimBoth(c, p, a, b, s);
    }
  }

  /** The bounds of the differing middle: equal lines before `prefix`, equal lines from the two ends on,
      and a trimming that could go no further. */
  method Trim(oldLines: seq<Line>, newLines: seq<Line>) returns (prefix: nat, oldEnd: nat, newEnd: nat)
    ensures prefix <= oldEnd <= |oldLines| && prefix <= newEnd <= |newLines|
    ensures oldLines[..prefix] == newLines[..prefix] && oldLines[oldEnd..] == newLines[newEnd..]
    ensures prefix < oldEnd && prefix < newEnd ==>
      oldLines[prefix] != newLines[prefix] && oldLines[oldEnd - 1] != newLines[newEnd - 1]
  {
    prefix := 0;
    while prefix < |oldLines| && prefix < |newLines| && oldLines[prefix] == newLines[prefix]
      invariant prefix <= |oldLines| && prefix <= |newLines|
      invariant oldLines[..prefix] == newLines[..prefix]
    {
      prefix := prefix + 1;
    }
    oldEnd, newEnd := |oldLines|, |newLines|;
    while oldEnd > prefix && newEnd > prefix && oldLines[oldEnd - 1] == newLines[newEnd - 1]
      invariant prefix <= oldEnd <= |oldLines| && prefix <= newEnd <= |newLines|
      invariant oldLines[oldEnd..] == newLines[newEnd..]
    {
      oldEnd, newEnd := oldEnd - 1, newEnd - 1;
      assert oldLines[oldEnd..] == [oldLines[oldEnd]] + oldLines[oldEnd + 1..];
      assert newLines[newEnd..] == [newLines[newEnd]] + newLines[newEnd + 1..];
    }
  }

  /** The edit script of two files: optimal among all scripts, with the deletions of each change first. */
  method ComputeEditOps(oldLines: seq<Line>, newLines: seq<Line>) returns (ops: seq<Op>)
    ensures Optimal(ops, oldLines, newLines)
    ensures DeletionsFirst(ops)
  {
    var prefix, oldEnd, newEnd := Trim(oldLines, newLines);
    ops := PushKeeps([], oldLines[..prefix]);
    var mid := ComputeMiddleOps(oldLines[prefix..oldEnd], newLines[prefix..newEnd]);
    ops := PushKeeps(ops + mid, oldLines[oldEnd..]);
    Reassemble(oldLines, newLines, prefix, oldEnd, newEnd, mid, ops);
  }

  lemma Reassemble(oldLines: seq<Line>, newLines: seq<Line>, prefix: nat, oldEnd: nat, newEnd: nat, mid: seq<Op>,
      ops: seq<Op>)
    requires prefix <= oldEnd <= |oldLines| && prefix <= newEnd <= |newLines|
    requires oldLines[..prefix] == newLines[..prefix] && oldLines[oldEnd..] == newLines[newEnd..]
    requires Transforms(mid, oldLines[prefix..oldEnd], newLines[prefix..newEnd]) && DeletionsFirst(mid)
    requires |Kept(mid)| == Length(oldLines[prefix..oldEnd], newLines[prefix..newEnd])
    requires ops == [] + Keeps(oldLines[..prefix]) + mid + Keeps(oldLines[oldEnd..])
    ensures Optimal(ops, oldLines, newLines) && DeletionsFirst(ops)
  {
    var p, a, b, s := oldLines[..prefix], oldLines[prefix..oldEnd], newLines[prefix..newEnd], oldLines[oldEnd..];
    CutInThree(oldLines, prefix, oldEnd);
    CutInThree(newLines, prefix, newEnd);
    assert [] + Keeps(p) == Keeps(p);
    TrimmedIsOptimal(p, a, b, s, mid, oldLines, newLines, ops);
    KeepsAround(Keeps(p), mid, Keeps(s));
  }

  lemma CutInThree(whole: seq<Line>, i: nat, j: nat)
    requires i <= j <= |whole|
    ensures whole == whole[..i] + whole[i..j] + whole[j..]
  {
  }

  lemma KeepsAround(pre: seq<Op>, mid: seq<Op>, post: seq<Op>)
    requires AllKept(pre) && DeletionsFirst(mid) && AllKept(post)
    ensures DeletionsFirst(pre + mid + post)
  {
    var all := pre + mid + post;
    forall k | 0 <= k < |all| - 1 && all[k].Add?
      ensures !all[k + 1].Del?
    {
      assert |pre| <= k < |pre| + |mid| && all[k] == mid[k - |pre|];
    }
  }
}
