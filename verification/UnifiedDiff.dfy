/** The unified diff: change ranges with their context, the printed hunks, and the reader and the applier
    that give the print its meaning (POSIX.1-2017, `diff`, "Diff -u or -U Output Format"). */
module UnifiedDiff {
  import opened Decimal
  import opened EditScript
  import opened Lcs
  import opened Optional
  import opened TextLines

  // ----- positions and change ranges -----

  /** An op with the 1-based lines it stands at in the old and the new file. */
  datatype Positioned = Positioned(op: Op, oldPos: nat, newPos: nat)

  /** An inclusive range of op indices. */
  datatype Range = Range(start: nat, end: nat)

  ghost predicate Annotated(indexed: seq<Positioned>, ops: seq<Op>) {
    && |indexed| == |ops|
    && forall k :: 0 <= k < |ops| ==>
      indexed[k] == Positioned(ops[k], |OldSide(ops[..k])| + 1, |NewSide(ops[..k])| + 1)
  }

  method Annotate(ops: seq<Op>) returns (indexed: seq<Positioned>)
    ensures Annotated(indexed, ops)
  {
    indexed := [];
    var oldLine, newLine := 1, 1;
    for k := 0 to |ops|
      invariant Annotated(indexed, ops[..k])
      invariant oldLine == |OldSide(ops[..k])| + 1 && newLine == |NewSide(ops[..k])| + 1
    {
      var op := ops[k];
      indexed := indexed + [Positioned(op, oldLine, newLine)];
      assert forall i :: 0 <= i <= k ==> ops[..k + 1][..i] == ops[..i];
      assert forall i :: 0 <= i <= k ==> ops[..k][..i] == ops[..i];
      SidesPush(ops[..k], op);
      assert ops[..k + 1] == ops[..k] + [op];
      if !op.Add? {
        oldLine := oldLine + 1;
      }
      if !op.Del? {
        newLine := newLine + 1;
      }
    }
    assert ops[..|ops|] == ops;
  }

  ghost predicate Covered(ranges: seq<Range>, x: int) {
    exists r :: 0 <= r < |ranges| && ranges[r].start <= x <= ranges[r].end
  }

  /** Some change among the first `upTo` ops lies within `context` ops of `x`. */
  ghost predicate NearChange(ops: seq<Op>, context: nat, upTo: nat, x: int)
    requires upTo <= |ops|
  {
    exists k :: 0 <= k < upTo && !ops[k].Keep? && k - context <= x <= k + context
  }

  ghost predicate Separated(ranges: seq<Range>) {
    forall r :: 0 <= r < |ranges| - 1 ==> ranges[r].end + 1 < ranges[r + 1].start
  }

  ghost predicate Bounded(ranges: seq<Range>, size: nat) {
    forall r :: 0 <= r < |ranges| ==> ranges[r].start <= ranges[r].end < size
  }

  /** The ranges are the maximal runs of ops within `context` of a change, in order. */
  ghost predicate Grouped(ranges: seq<Range>, ops: seq<Op>, context: nat) {
    && Bounded(ranges, |ops|)
    && Separated(ranges)
    && forall x :: 0 <= x < |ops| ==> (Covered(ranges, x) <==> NearChange(ops, context, |ops|, x))
  }

  /** The ranges after the first `upTo` ops have been looked at. */
  ghost predicate GroupedUpTo(ranges: seq<Range>, ops: seq<Op>, context: nat, upTo: nat)
    requires upTo <= |ops|
  {
    && Bounded(ranges, |ops|)
    && Separated(ranges)
    && (forall r :: 0 <= r < |ranges| ==> ranges[r].start == 0 || ranges[r].start + context < upTo)
    && forall x :: 0 <= x < |ops| ==> (Covered(ranges, x) <==> NearChange(ops, context, upTo, x))
  }

  method GroupChanges(indexed: seq<Positioned>, contextLines: nat, ghost ops: seq<Op>) returns (ranges: seq<Range>)
    requires Annotated(indexed, ops)
    ensures Grouped(ranges, ops, contextLines)
  {
    ranges := [];
    for k := 0 to |indexed|
      invariant GroupedUpTo(ranges, ops, contextLines, k)
    {
      if indexed[k].op.Keep? {
        GroupKeep(ranges, ops, contextLines, k);
      } else {
        var start := if k < contextLines then 0 else k - contextLines;
        var end := if k + contextLines < |indexed| then k + contextLines else |indexed| - 1;
        var last := |ranges| - 1;
        if ranges != [] && start <= ranges[last].end + 1 {
          GroupMerge(ranges, ops, contextLines, k, start, end);
          ranges := ranges[last := Range(ranges[last].start, if ranges[last].end >= end then ranges[last].end else end)];
        } else {
          GroupPush(ranges, ops, contextLines, k, start, end);
          ranges := ranges + [Range(start, end)];
        }
      }
    }
  }

  lemma GroupKeep(ranges: seq<Range>, ops: seq<Op>, context: nat, k: nat)
    requires k < |ops| && ops[k].Keep? && GroupedUpTo(ranges, ops, context, k)
    ensures GroupedUpTo(ranges, ops, context, k + 1)
  {
    NearChangeStep(ops, context, k);
  }

  ghost predicate Window(ops: seq<Op>, context: nat, k: nat, start: nat, end: nat) {
    && k < |ops|
    && start == (if k < context then 0 else k - context)
    && end == (if k + context < |ops| then k + context else |ops| - 1)
  }

  /** The last range stretched to reach `end`. */
  function Merged(ranges: seq<Range>, end: nat): seq<Range>
    requires ranges != []
  {
    var last := |ranges| - 1;
    ranges[last := Range(ranges[last].start, if ranges[last].end >= end then ranges[last].end else end)]
  }

  lemma GroupMerge(ranges: seq<Range>, ops: seq<Op>, context: nat, k: nat, start: nat, end: nat)
    requires Window(ops, context, k, start, end)
    requires !ops[k].Keep? && GroupedUpTo(ranges, ops, context, k)
    requires ranges != [] && start <= ranges[|ranges| - 1].end + 1
    ensures GroupedUpTo(Merged(ranges, end), ops, context, k + 1)
  {
    NearChangeStep(ops, context, k);
    var merged := Merged(ranges, end);
    MergeCovers(ranges, start, end, merged);
    forall x | 0 <= x < |ops|
      ensures Covered(merged, x) <==> NearChange(ops, context, k + 1, x)
    {
      assert Covered(ranges, x) <==> NearChange(ops, context, k, x);
    }
  }

  lemma GroupPush(ranges: seq<Range>, ops: seq<Op>, context: nat, k: nat, start: nat, end: nat)
    requires Window(ops, context, k, start, end)
    requires !ops[k].Keep? && GroupedUpTo(ranges, ops, context, k)
    requires ranges == [] || start > ranges[|ranges| - 1].end + 1
    ensures GroupedUpTo(ranges + [Range(start, end)], ops, context, k + 1)
  {
    NearChangeStep(ops, context, k);
    PushCovers(ranges, Range(start, end));
  }

  lemma NearChangeStep(ops: seq<Op>, context: nat, k: nat)
    requires k < |ops|
    ensures forall x :: NearChange(ops, context, k + 1, x) <==>
      NearChange(ops, context, k, x) || (!ops[k].Keep? && k - context <= x <= k + context)
  {
    forall x
      ensures NearChange(ops, context, k + 1, x) <==>
        NearChange(ops, context, k, x) || (!ops[k].Keep? && k - context <= x <= k + context)
    {
      if NearChange(ops, context, k, x) {
        var i :| 0 <= i < k && !ops[i].Keep? && i - context <= x <= i + context;
        assert 0 <= i < k + 1;
      }
    }
  }

  lemma MergeCovers(ranges: seq<Range>, start: nat, end: nat, merged: seq<Range>)
    requires ranges != [] && merged == Merged(ranges, end)
    requires var last := ranges[|ranges| - 1]; last.start <= last.end && last.start <= start <= end && start <= last.end + 1
    ensures forall x :: Covered(merged, x) <==> Covered(ranges, x) || start <= x <= end
  {
    var last := |ranges| - 1;
    forall x
      ensures Covered(merged, x) <==> Covered(ranges, x) || start <= x <= end
    {
      if Covered(ranges, x) {
        var r :| 0 <= r < |ranges| && ranges[r].start <= x <= ranges[r].end;
        assert merged[r].start <= x <= merged[r].end;
      }
      if start <= x <= end {
        assert merged[last].start <= x <= merged[last].end;
      }
      if Covered(merged, x) {
        var r :| 0 <= r < |merged| && merged[r].start <= x <= merged[r].end;
        if r != last {
          assert ranges[r].start <= x <= ranges[r].end;
        } else if x < start || end < x {
          assert ranges[last].start <= x <= ranges[last].end;
        }
      }
    }
  }

  lemma PushCovers(ranges: seq<Range>, range: Range)
    ensures forall x :: Covered(ranges + [range], x) <==> Covered(ranges, x) || range.start <= x <= range.end
  {
    var pushed := ranges + [range];
    forall x
      ensures Covered(pushed, x) <==> Covered(ranges, x) || range.start <= x <= range.end
    {
      if Covered(ranges, x) {
        var r :| 0 <= r < |ranges| && ranges[r].start <= x <= ranges[r].end;
        assert pushed[r].start <= x <= pushed[r].end;
      }
      if range.start <= x <= range.end {
        assert pushed[|ranges|].start <= x <= pushed[|ranges|].end;
      }
    }
  }

  // ----- hunks, as printed -----

  datatype Hunk = Hunk(oldStart: nat, oldCount: nat, newStart: nat, newCount: nat, body: seq<Op>)

  /** The hunk printed for a range: an empty side is announced as starting at line 0. */
  function HunkOf(ops: seq<Op>, range: Range): Hunk
    requires range.start <= range.end < |ops|
  {
    var body := ops[range.start..range.end + 1];
    var oldCount, newCount := |OldSide(body)|, |NewSide(body)|;
    Hunk(if oldCount == 0 then 0 else |OldSide(ops[..range.start])| + 1, oldCount,
         if newCount == 0 then 0 else |NewSide(ops[..range.start])| + 1, newCount, body)
  }

  function HunksOf(ops: seq<Op>, ranges: seq<Range>): (hunks: seq<Hunk>)
    requires Bounded(ranges, |ops|)
    ensures |hunks| == |ranges|
  {
    if ranges == [] then [] else [HunkOf(ops, ranges[0])] + HunksOf(ops, ranges[1..])
  }

  function Header(h: Hunk): Line {
    "@@ -" + (Format(h.oldStart) + ("," + (Format(h.oldCount) + (" +" +
    (Format(h.newStart) + ("," + (Format(h.newCount) + " @@")))))))
  }

  function Render(op: Op): Line {
    match op
    case Keep(text) => " " + text
    case Del(text) => "-" + text
    case Add(text) => "+" + text
  }

  function RenderAll(ops: seq<Op>): (lines: seq<Line>)
    ensures |lines| == |ops|
  {
    if ops == [] then [] else [Render(ops[0])] + RenderAll(ops[1..])
  }

  function HunkLines(hunks: seq<Hunk>): seq<Line> {
    if hunks == [] then [] else [Header(hunks[0])] + (RenderAll(hunks[0].body) + HunkLines(hunks[1..]))
  }

  // ----- reading a diff -----

  function Expect(prefix: string, s: string): Option<string> {
    if prefix <= s then Some(s[|prefix|..]) else None
  }

  function ParseHeader(line: Line): Option<Hunk> {
    var s :- Expect("@@ -", line);
    var (oldStart, s) :- ReadNat(s);
    var s :- Expect(",", s);
    var (oldCount, s) :- ReadNat(s);
    var s :- Expect(" +", s);
    var (newStart, s) :- ReadNat(s);
    var s :- Expect(",", s);
    var (newCount, s) :- ReadNat(s);
    if s == " @@" then Some(Hunk(oldStart, oldCount, newStart, newCount, [])) else None
  }

  /** Reads body lines until the announced numbers of old and new lines are used up. */
  function ParseBody(lines: seq<Line>, oldLeft: nat, newLeft: nat): Option<(seq<Op>, seq<Line>)>
    decreases |lines|
  {
    if oldLeft == 0 && newLeft == 0 then Some(([], lines))
    else if lines == [] || lines[0] == "" then None
    else
      var mark, text := lines[0][0], lines[0][1..];
      if mark == ' ' && oldLeft > 0 && newLeft > 0 then
        var (ops, rest) :- ParseBody(lines[1..], oldLeft - 1, newLeft - 1);
        Some(([Keep(text)] + ops, rest))
      else if mark == '-' && oldLeft > 0 then
        var (ops, rest) :- ParseBody(lines[1..], oldLeft - 1, newLeft);
        Some(([Del(text)] + ops, rest))
      else if mark == '+' && newLeft > 0 then
        var (ops, rest) :- ParseBody(lines[1..], oldLeft, newLeft - 1);
        Some(([Add(text)] + ops, rest))
      else None
  }

  lemma {:induction false} ParseBodyShrinks(lines: seq<Line>, oldLeft: nat, newLeft: nat)
    requires ParseBody(lines, oldLeft, newLeft).Some?
    ensures |ParseBody(lines, oldLeft, newLeft).value.1| <= |lines|
    decreases |lines|
  {
    if oldLeft == 0 && newLeft == 0 {
    } else {
      match lines[0][0] {
        case ' ' => ParseBodyShrinks(lines[1..], oldLeft - 1, newLeft - 1);
        case '-' => ParseBodyShrinks(lines[1..], oldLeft - 1, newLeft);
        case _ => ParseBodyShrinks(lines[1..], oldLeft, newLeft - 1);
      }
    }
  }

  function ParseHunks(lines: seq<Line>): Option<seq<Hunk>>
    decreases |lines|
  {
    if lines == [] then Some([])
    else
      var h :- ParseHeader(lines[0]);
      var (body, rest) :- ParseBody(lines[1..], h.oldCount, h.newCount);
      ParseBodyShrinks(lines[1..], h.oldCount, h.newCount);
      var hunks :- ParseHunks(rest);
      Some([h.(body := body)] + hunks)
  }

  /** Reads a whole diff: the two file lines, then the hunks. */
  function ParseDiff(lines: seq<Line>): Option<seq<Hunk>> {
    if |lines| >= 2 && "--- " <= lines[0] && "+++ " <= lines[1] then ParseHunks(lines[2..]) else None
  }

  // ----- applying a diff -----

  /** How many lines of a file precede a range announced as `start,count`. */
  function Before(start: nat, count: nat): Option<nat> {
    if count == 0 then Some(start) else if start == 0 then None else Some(start - 1)
  }

  /** Applies hunks to the old lines from `cursor` on, the new lines so far being `out`. Every announced
      position and every kept or deleted line must agree. */
  function ApplyFrom(old_: seq<Line>, hunks: seq<Hunk>, cursor: nat, out: seq<Line>): Option<seq<Line>>
    requires cursor <= |old_|
    decreases |hunks|
  {
    if hunks == [] then Some(out + old_[cursor..])
    else
      var h := hunks[0];
      var at :- Before(h.oldStart, h.oldCount);
      var newAt :- Before(h.newStart, h.newCount);
      if at < cursor || at + h.oldCount > |old_| then None
      else
        var out' := out + old_[cursor..at];
        if newAt == |out'| && old_[at..at + h.oldCount] == OldSide(h.body) && |NewSide(h.body)| == h.newCount
        then ApplyFrom(old_, hunks[1..], at + h.oldCount, out' + NewSide(h.body))
        else None
  }

  /** What the printed diff means for the old lines. */
  function Patch(diff: seq<Line>, old_: seq<Line>): Option<seq<Line>> {
    var hunks :- ParseDiff(diff);
    ApplyFrom(old_, hunks, 0, [])
  }

  // ----- the reader inverts the print -----

  lemma ReadHeader(h: Hunk)
    ensures ParseHeader(Header(h)) == Some(h.(body := []))
  {
    var s8 := " @@";
    var s7 := Format(h.newCount) + s8;
    var s6 := "," + s7;
    var s5 := Format(h.newStart) + s6;
    var s4 := " +" + s5;
    var s3 := Format(h.oldCount) + s4;
    var s2 := "," + s3;
    var s1 := Format(h.oldStart) + s2;
    ReadFormat(h.oldStart, s2);
    ReadFormat(h.oldCount, s4);
    ReadFormat(h.newStart, s6);
    ReadFormat(h.newCount, s8);
    Expected("@@ -", s1);
    Expected(",", s3);
    Expected(" +", s5);
    Expected(",", s7);
  }

  lemma Expected(prefix: string, rest: string)
    ensures Expect(prefix, prefix + rest) == Some(rest)
  {
    assert (prefix + rest)[|prefix|..] == rest;
  }

  lemma {:induction false} ReadBody(ops: seq<Op>, rest: seq<Line>)
    ensures ParseBody(RenderAll(ops) + rest, |OldSide(ops)|, |NewSide(ops)|) == Some((ops, rest))
  {
    var lines := RenderAll(ops) + rest;
    if ops == [] {
      assert lines == rest;
    } else {
      ReadBody(ops[1..], rest);
      assert lines[0] == Render(ops[0]) && lines[1..] == RenderAll(ops[1..]) + rest;
      assert Render(ops[0])[1..] == ops[0].text;
      assert ops == [ops[0]] + ops[1..];
    }
  }

  /** A hunk announces as many old and new lines as its body has. */
  ghost predicate CountsMatch(h: Hunk) {
    h.oldCount == |OldSide(h.body)| && h.newCount == |NewSide(h.body)|
  }

  lemma HunkParses(lines: seq<Line>, header: Hunk, body: seq<Op>, rest: seq<Line>, later: seq<Hunk>)
    requires lines != [] && ParseHeader(lines[0]) == Some(header)
    requires ParseBody(lines[1..], header.oldCount, header.newCount) == Some((body, rest))
    requires ParseHunks(rest) == Some(later)
    ensures ParseHunks(lines) == Some([header.(body := body)] + later)
  {
  }

  lemma ReadOneHunk(lines: seq<Line>, h: Hunk, later: seq<Hunk>, rest: seq<Line>)
    requires lines != [] && CountsMatch(h) && ParseHeader(lines[0]) == Some(h.(body := []))
    requires lines[1..] == RenderAll(h.body) + rest && ParseHunks(rest) == Some(later)
    ensures ParseHunks(lines) == Some([h] + later)
  {
    var header := h.(body := []);
    ReadBody(h.body, rest);
    assert ParseBody(lines[1..], header.oldCount, header.newCount) == Some((h.body, rest));
    HunkParses(lines, header, h.body, rest, later);
    assert header.(body := h.body) == h;
  }

  lemma HunkLinesUnfold(hunks: seq<Hunk>, lines: seq<Line>)
    requires hunks != [] && lines == HunkLines(hunks)
    ensures lines != [] && lines[0] == Header(hunks[0])
    ensures lines[1..] == RenderAll(hunks[0].body) + HunkLines(hunks[1..])
  {
    var first, rest := Header(hunks[0]), RenderAll(hunks[0].body) + HunkLines(hunks[1..]);
    assert lines == [first] + rest;
  }

  lemma {:induction false} ReadHunks(hunks: seq<Hunk>)
    requires forall k :: 0 <= k < |hunks| ==> CountsMatch(hunks[k])
    ensures ParseHunks(HunkLines(hunks)) == Some(hunks)
  {
    if hunks != [] {
      HunkLinesUnfold(hunks, HunkLines(hunks));
      ReadHunks(hunks[1..]);
      assert CountsMatch(hunks[0]);
      ReadHeader(hunks[0]);
      ReadOneHunk(HunkLines(hunks), hunks[0], hunks[1..], HunkLines(hunks[1..]));
      assert [hunks[0]] + hunks[1..] == hunks;
    }
  }

  // ----- the printed diff turns the old lines into the new ones -----

  /** A side the hunk does not touch is announced at line 0, which is its true place only if nothing precedes it. */
  ghost predicate WellPlaced(ops: seq<Op>, range: Range)
    requires range.start <= range.end < |ops|
  {
    var h := HunkOf(ops, range);
    && (h.oldCount == 0 ==> OldSide(ops[..range.start]) == [])
    && (h.newCount == 0 ==> NewSide(ops[..range.start]) == [])
  }

  ghost predicate AllWellPlaced(ops: seq<Op>, ranges: seq<Range>)
    requires Bounded(ranges, |ops|)
  {
    forall r :: 0 <= r < |ranges| ==> WellPlaced(ops, ranges[r])
  }

  lemma {:induction false} KeptSides(ops: seq<Op>)
    requires AllKept(ops)
    ensures OldSide(ops) == NewSide(ops) && |OldSide(ops)| == |ops|
  {
    if ops != [] {
      KeptSides(ops[1..]);
    }
  }

  lemma {:induction false} EmptySides(ops: seq<Op>)
    ensures OldSide(ops) == [] <==> forall k :: 0 <= k < |ops| ==> ops[k].Add?
    ensures NewSide(ops) == [] <==> forall k :: 0 <= k < |ops| ==> ops[k].Del?
  {
    if ops != [] {
      EmptySides(ops[1..]);
      assert forall k :: 1 <= k < |ops| ==> ops[k] == ops[1..][k - 1];
      assert forall k :: 0 <= k < |ops| - 1 ==> ops[k + 1] == ops[1..][k];
    }
  }

  /** The ops between two indices, seen from both sides. */
  lemma SidesCut(ops: seq<Op>, i: nat, j: nat)
    requires i <= j <= |ops|
    ensures OldSide(ops[..j]) == OldSide(ops[..i]) + OldSide(ops[i..j])
    ensures NewSide(ops[..j]) == NewSide(ops[..i]) + NewSide(ops[i..j])
  {
    assert ops[..j] == ops[..i] + ops[i..j];
    SidesConcat(ops[..i], ops[i..j]);
  }

  lemma SidesRest(ops: seq<Op>, j: nat)
    requires j <= |ops|
    ensures OldSide(ops) == OldSide(ops[..j]) + OldSide(ops[j..])
    ensures NewSide(ops) == NewSide(ops[..j]) + NewSide(ops[j..])
  {
    assert ops == ops[..j] + ops[j..];
    SidesConcat(ops[..j], ops[j..]);
  }

  /** The ranges still ahead of op `p` take in every change from there on. */
  ghost predicate Ahead(ops: seq<Op>, ranges: seq<Range>, p: nat) {
    && p <= |ops|
    && Bounded(ranges, |ops|) && Separated(ranges)
    && (ranges != [] ==> p <= ranges[0].start)
    && forall x :: p <= x < |ops| && !Covered(ranges, x) ==> ops[x].Keep?
  }

  lemma {:induction false} LaterStarts(ranges: seq<Range>, size: nat, r: nat)
    requires Bounded(ranges, size) && Separated(ranges) && 0 < r < |ranges|
    ensures ranges[0].end + 1 < ranges[r].start
  {
    if r > 1 {
      LaterStarts(ranges, size, r - 1);
      assert ranges[r - 1].end + 1 < ranges[r - 1 + 1].start;
    } else {
      assert ranges[0].end + 1 < ranges[0 + 1].start;
    }
  }

  lemma CoveredTail(ranges: seq<Range>, x: int)
    requires ranges != []
    ensures Covered(ranges, x) <==> ranges[0].start <= x <= ranges[0].end || Covered(ranges[1..], x)
  {
    assert ranges == [ranges[0]] + ranges[1..];
    if Covered(ranges, x) {
      var r :| 0 <= r < |ranges| && ranges[r].start <= x <= ranges[r].end;
      assert r == 0 || ranges[1..][r - 1] == ranges[r];
    }
    if Covered(ranges[1..], x) {
      var r :| 0 <= r < |ranges[1..]| && ranges[1..][r].start <= x <= ranges[1..][r].end;
      assert ranges[r + 1] == ranges[1..][r];
    }
  }

  lemma SeparatedTail(ranges: seq<Range>)
    requires ranges != [] && Separated(ranges)
    ensures Separated(ranges[1..])
  {
    forall r | 0 <= r < |ranges[1..]| - 1
      ensures ranges[1..][r].end + 1 < ranges[1..][r + 1].start
    {
      assert ranges[r + 1].end + 1 < ranges[r + 1 + 1].start;
    }
  }

  lemma AheadSplits(ops: seq<Op>, ranges: seq<Range>, p: nat)
    requires Ahead(ops, ranges, p) && ranges != []
    ensures AllKept(ops[p..ranges[0].start])
    ensures Ahead(ops, ranges[1..], ranges[0].end + 1)
  {
    var first, rest := ranges[0], ranges[1..];
    forall r | 0 < r < |ranges|
      ensures first.end + 1 < ranges[r].start
    {
      LaterStarts(ranges, |ops|, r);
    }
    forall x | p <= x < first.start
      ensures ops[x].Keep?
    {
      assert !Covered(ranges, x);
    }
    forall x | first.end + 1 <= x < |ops| && !Covered(rest, x)
      ensures ops[x].Keep?
    {
      CoveredTail(ranges, x);
    }
    SeparatedTail(ranges);
  }

  lemma SlicesOf(whole: seq<Line>, a: seq<Line>, b: seq<Line>, c: seq<Line>, d: seq<Line>)
    requires whole == a + b + c + d
    ensures whole[|a|..|a + b|] == b && whole[|a + b|..|a + b + c|] == c
  {
  }

  /** Where a hunk truly stands: after the ops before its range. */
  ghost predicate Stands(ops: seq<Op>, range: Range, p: nat, old_: seq<Line>, cursor: nat, out: seq<Line>, at: nat,
      newAt: nat)
    requires p <= range.start <= range.end < |ops|
  {
    && old_ == OldSide(ops) && cursor == |OldSide(ops[..p])| && out == NewSide(ops[..p])
    && at == |OldSide(ops[..range.start])| && newAt == |NewSide(ops[..range.start])|
    && CopiesUpTo(ops, p, range.start, old_, cursor, out, at, newAt)
    && Replaces(ops, HunkOf(ops, range), range.start, range.end + 1, old_, at)
  }

  /** Copying the old lines between two hunks reaches the new lines before the second. */
  ghost predicate CopiesUpTo(ops: seq<Op>, p: nat, start: nat, old_: seq<Line>, cursor: nat, out: seq<Line>,
      at: nat, newAt: nat)
    requires p <= start <= |ops|
  {
    && cursor <= at <= |old_|
    && at - cursor == newAt - |out| == start - p
    && out + old_[cursor..at] == NewSide(ops[..start])
  }

  /** A hunk's old lines are found where it stands, and its new lines carry on from there. */
  ghost predicate Replaces(ops: seq<Op>, h: Hunk, start: nat, next: nat, old_: seq<Line>, at: nat)
    requires start <= next <= |ops|
  {
    && at + h.oldCount <= |old_|
    && old_[at..at + h.oldCount] == OldSide(h.body)
    && at + h.oldCount == |OldSide(ops[..next])|
    && NewSide(ops[..start]) + NewSide(h.body) == NewSide(ops[..next])
    && h.newCount == |NewSide(h.body)|
    && h.oldCount + h.newCount > 0
  }

  lemma GapCopies(ops: seq<Op>, p: nat, start: nat)
    requires p <= start <= |ops| && AllKept(ops[p..start])
    ensures CopiesUpTo(ops, p, start, OldSide(ops), |OldSide(ops[..p])|, NewSide(ops[..p]),
                       |OldSide(ops[..start])|, |NewSide(ops[..start])|)
  {
    var gap := ops[p..start];
    SidesCut(ops, p, start);
    SidesRest(ops, start);
    KeptSides(gap);
    SlicesOf(OldSide(ops), OldSide(ops[..p]), OldSide(gap), OldSide(ops[start..]), []);
  }

  lemma BodyReplaces(ops: seq<Op>, range: Range)
    requires range.start <= range.end < |ops|
    ensures Replaces(ops, HunkOf(ops, range), range.start, range.end + 1, OldSide(ops), |OldSide(ops[..range.start])|)
  {
    var (start, next) := (range.start, range.end + 1);
    var body := ops[start..next];
    SidesCut(ops, start, next);
    SidesRest(ops, next);
    EmptySides(body);
    assert body[0] == ops[start];
    SlicesOf(OldSide(ops), OldSide(ops[..start]), OldSide(body), OldSide(ops[next..]), []);
  }

  lemma HunkStands(ops: seq<Op>, range: Range, p: nat)
    requires p <= range.start <= range.end < |ops| && AllKept(ops[p..range.start])
    ensures Stands(ops, range, p, OldSide(ops), |OldSide(ops[..p])|, NewSide(ops[..p]),
                   |OldSide(ops[..range.start])|, |NewSide(ops[..range.start])|)
  {
    GapCopies(ops, p, range.start);
    BodyReplaces(ops, range);
  }

  /** One hunk: applied in place when it is well placed, refused otherwise. */
  lemma ApplyOne(ops: seq<Op>, range: Range, p: nat, hunks: seq<Hunk>, old_: seq<Line>, cursor: nat,
      out: seq<Line>, at: nat, newAt: nat)
    requires p <= range.start <= range.end < |ops|
    requires Stands(ops, range, p, old_, cursor, out, at, newAt)
    requires hunks != [] && hunks[0] == HunkOf(ops, range)
    ensures ApplyFrom(old_, hunks, cursor, out)
      == if WellPlaced(ops, range)
         then ApplyFrom(old_, hunks[1..], |OldSide(ops[..range.end + 1])|, NewSide(ops[..range.end + 1]))
         else None
  {
    var h := HunkOf(ops, range);
    if WellPlaced(ops, range) {
      assert Before(h.oldStart, h.oldCount) == Some(at);
      assert Before(h.newStart, h.newCount) == Some(newAt);
      assert |out + old_[cursor..at]| == newAt;
    } else if h.oldCount == 0 {
      assert Before(h.oldStart, h.oldCount) == Some(0);
      assert cursor == 0 ==> out + old_[cursor..0] == out;
    } else {
      assert Before(h.newStart, h.newCount) == Some(0);
    }
  }

  lemma AllWellPlacedSplits(ops: seq<Op>, ranges: seq<Range>)
    requires Bounded(ranges, |ops|) && ranges != []
    ensures AllWellPlaced(ops, ranges) <==> WellPlaced(ops, ranges[0]) && AllWellPlaced(ops, ranges[1..])
  {
    if AllWellPlaced(ops, ranges) {
      forall r | 0 <= r < |ranges[1..]|
        ensures WellPlaced(ops, ranges[1..][r])
      {
        assert WellPlaced(ops, ranges[r + 1]);
      }
    }
    if WellPlaced(ops, ranges[0]) && AllWellPlaced(ops, ranges[1..]) {
      forall r | 0 <= r < |ranges|
        ensures WellPlaced(ops, ranges[r])
      {
        assert r == 0 || WellPlaced(ops, ranges[1..][r - 1]);
      }
    }
  }

  /** Nothing but kept lines follows the last hunk. */
  lemma ApplyEnd(ops: seq<Op>, p: nat)
    requires Ahead(ops, [], p)
    ensures |OldSide(ops[..p])| <= |OldSide(ops)|
    ensures ApplyFrom(OldSide(ops), [], |OldSide(ops[..p])|, NewSide(ops[..p])) == Some(NewSide(ops))
  {
    SidesRest(ops, p);
    forall x | 0 <= x < |ops[p..]|
      ensures ops[p..][x].Keep?
    {
      assert !Covered([], p + x);
    }
    KeptSides(ops[p..]);
    assert OldSide(ops)[|OldSide(ops[..p])|..] == OldSide(ops[p..]);
  }

  /** The outcome of applying the hunks of `ranges` once the ops before `p` are done. */
  ghost function Outcome(ops: seq<Op>, ranges: seq<Range>, p: nat): Option<seq<Line>>
    requires p <= |ops| && Bounded(ranges, |ops|)
  {
    SidesRest(ops, p);
    ApplyFrom(OldSide(ops), HunksOf(ops, ranges), |OldSide(ops[..p])|, NewSide(ops[..p]))
  }

  lemma OutcomeStep(ops: seq<Op>, ranges: seq<Range>, p: nat)
    requires Ahead(ops, ranges, p) && ranges != []
    ensures Outcome(ops, ranges, p)
      == if WellPlaced(ops, ranges[0]) then Outcome(ops, ranges[1..], ranges[0].end + 1) else None
  {
    var r, hunks := ranges[0], HunksOf(ops, ranges);
    AheadSplits(ops, ranges, p);
    FirstHunk(ops, ranges);
    HunkStands(ops, r, p);
    ApplyOne(ops, r, p, hunks, OldSide(ops), |OldSide(ops[..p])|, NewSide(ops[..p]),
             |OldSide(ops[..r.start])|, |NewSide(ops[..r.start])|);
  }

  lemma OutcomeEnd(ops: seq<Op>, ranges: seq<Range>, p: nat)
    requires Ahead(ops, ranges, p) && ranges == []
    ensures Outcome(ops, ranges, p) == Some(NewSide(ops)) && AllWellPlaced(ops, ranges)
  {
    assert HunksOf(ops, ranges) == [];
    ApplyEnd(ops, p);
  }

  lemma FirstHunk(ops: seq<Op>, ranges: seq<Range>)
    requires Bounded(ranges, |ops|) && ranges != []
    ensures var hunks := HunksOf(ops, ranges);
      hunks != [] && hunks[0] == HunkOf(ops, ranges[0]) && hunks[1..] == HunksOf(ops, ranges[1..])
  {
  }

  lemma {:induction false} ApplyPrinted(ops: seq<Op>, ranges: seq<Range>, p: nat)
    requires Ahead(ops, ranges, p)
    ensures Outcome(ops, ranges, p) == if AllWellPlaced(ops, ranges) then Some(NewSide(ops)) else None
    decreases |ranges|
  {
    if ranges == [] {
      OutcomeEnd(ops, ranges, p);
    } else {
      OutcomeStep(ops, ranges, p);
      AheadSplits(ops, ranges, p);
      AllWellPlacedSplits(ops, ranges);
      ApplyPrinted(ops, ranges[1..], ranges[0].end + 1);
    }
  }

  /** With at least one line of context no hunk is misplaced. */
  lemma ContextPlaces(ops: seq<Op>, ranges: seq<Range>, context: nat)
    requires Grouped(ranges, ops, context) && context >= 1
    ensures AllWellPlaced(ops, ranges)
  {
    forall r | 0 <= r < |ranges|
      ensures WellPlaced(ops, ranges[r])
    {
      var start := ranges[r].start;
      var body := ops[start..ranges[r].end + 1];
      EmptySides(body);
      assert body[0] == ops[start];
      if start > 0 && !ops[start].Keep? {
        assert NearChange(ops, context, |ops|, start - 1);
        var q :| 0 <= q < |ranges| && ranges[q].start <= start - 1 <= ranges[q].end;
        RangesOrdered(ranges, |ops|, q, r);
      }
    }
  }

  lemma {:induction false} RangesOrdered(ranges: seq<Range>, size: nat, q: nat, r: nat)
    requires Bounded(ranges, size) && Separated(ranges) && q < |ranges| && r < |ranges|
    ensures q < r ==> ranges[q].end + 1 < ranges[r].start
    ensures r < q ==> ranges[r].end + 1 < ranges[q].start
    decreases q + r
  {
    if q + 1 < r {
      RangesOrdered(ranges, size, q, r - 1);
      assert ranges[r - 1].end + 1 < ranges[r - 1 + 1].start;
    } else if r + 1 < q {
      RangesOrdered(ranges, size, q - 1, r);
      assert ranges[q - 1].end + 1 < ranges[q - 1 + 1].start;
    } else if q < r {
      assert ranges[q].end + 1 < ranges[q + 1].start;
    } else if r < q {
      assert ranges[r].end + 1 < ranges[r + 1].start;
    }
  }

  /** The lines of a whole diff. */
  function DiffLines(path: string, ops: seq<Op>, ranges: seq<Range>): seq<Line>
    requires Bounded(ranges, |ops|)
  {
    ["--- a/" + path, "+++ b/" + path] + HunkLines(HunksOf(ops, ranges))
  }

  lemma {:induction false} HunksMatch(ops: seq<Op>, ranges: seq<Range>)
    requires Bounded(ranges, |ops|)
    ensures forall k :: 0 <= k < |ranges| ==> CountsMatch(HunksOf(ops, ranges)[k])
  {
    if ranges != [] {
      HunksMatch(ops, ranges[1..]);
      assert HunksOf(ops, ranges)[1..] == HunksOf(ops, ranges[1..]);
    }
  }

  /** Reading and applying the printed diff yields exactly the new lines when every hunk is well placed,
      and is refused when one is not. */
  lemma PatchOfDiff(path: string, ops: seq<Op>, ranges: seq<Range>, context: nat)
    requires Grouped(ranges, ops, context)
    ensures Patch(DiffLines(path, ops, ranges), OldSide(ops))
      == if AllWellPlaced(ops, ranges) then Some(NewSide(ops)) else None
    ensures context >= 1 ==> AllWellPlaced(ops, ranges)
  {
    var lines, hunks := DiffLines(path, ops, ranges), HunksOf(ops, ranges);
    HunksMatch(ops, ranges);
    ReadHunks(hunks);
    assert lines[2..] == HunkLines(hunks);
    assert "--- " <= lines[0] && "+++ " <= lines[1];
    forall x | 0 <= x < |ops|
      ensures ops[x].Keep? || NearChange(ops, context, |ops|, x)
    {
    }
    ApplyPrinted(ops, ranges, 0);
    assert ops[..0] == [];
    if context >= 1 {
      ContextPlaces(ops, ranges, context);
    }
  }

  /** Without context a line inserted in the middle of a file is announced at line 0 and cannot be applied. */
  lemma NoContextMisplaces()
    ensures var ops := [Keep("a"), Add("x"), Keep("b")];
      && Optimal(ops, ["a", "b"], ["a", "x", "b"])
      && Grouped([Range(1, 1)], ops, 0)
      && Patch(DiffLines("f", ops, [Range(1, 1)]), ["a", "b"]) == None
  {
    var ops := [Keep("a"), Add("x"), Keep("b")];
    var ranges := [Range(1, 1)];
    InsertionIsOptimal();
    InsertionIsGrouped(ops, ranges);
    PatchOfDiff("f", ops, ranges, 0);
    InsertionIsMisplaced(ops, ranges[0]);
  }

  lemma InsertionIsMisplaced(ops: seq<Op>, range: Range)
    requires ops == [Keep("a"), Add("x"), Keep("b")] && range == Range(1, 1)
    ensures !WellPlaced(ops, range)
  {
    var kept, added := [Keep("a")], [Add("x")];
    assert ops[..1] == kept && ops[1..2] == added;
    assert kept[1..] == [] && added[1..] == [];
    assert OldSide(kept[1..]) == [] && OldSide(added[1..]) == [];
    assert OldSide(kept) == ["a"] && OldSide(added) == [];
  }

  lemma InsertionIsGrouped(ops: seq<Op>, ranges: seq<Range>)
    requires ops == [Keep("a"), Add("x"), Keep("b")] && ranges == [Range(1, 1)]
    ensures Grouped(ranges, ops, 0)
  {
    forall x | 0 <= x < |ops|
      ensures Covered(ranges, x) <==> NearChange(ops, 0, |ops|, x)
    {
      assert ranges[0].start <= 1 <= ranges[0].end;
      if NearChange(ops, 0, |ops|, x) {
        var k :| 0 <= k < |ops| && !ops[k].Keep? && k <= x <= k;
      }
      if x == 1 {
        assert !ops[1].Keep? && 1 - 0 <= x <= 1 + 0;
      }
    }
  }

  lemma InsertionIsOptimal()
    ensures var ops := [Keep("a"), Add("x"), Keep("b")];
      Optimal(ops, ["a", "b"], ["a", "x", "b"]) && OldSide(ops) == ["a", "b"] && NewSide(ops) == ["a", "x", "b"]
  {
    var ops := [Keep("a"), Add("x"), Keep("b")];
    assert ops == [Keep("a")] + [Add("x")] + [Keep("b")];
    assert ops[1..] == [Add("x"), Keep("b")] && ops[1..][1..] == [Keep("b")];
    assert OldSide(ops) == ["a", "b"] && NewSide(ops) == ["a", "x", "b"] && Kept(ops) == ["a", "b"];
    forall c | CommonSubsequence(c, ["a", "b"], ["a", "x", "b"])
      ensures |c| <= |Kept(ops)|
    {
      LengthBounds(c, ["a", "b"], ["a", "x", "b"]);
      LengthFits(["a", "b"], ["a", "x", "b"]);
    }
  }

  // ----- printing -----

  function StripSlashes(path: string): string {
    if path != [] && path[0] == '/' then StripSlashes(path[1..]) else path
  }

  /** The path in the file lines is the given one without the slashes it begins with. */
  lemma {:induction false} StripsSlashes(path: string) returns (n: nat)
    ensures n <= |path| && StripSlashes(path) == path[n..]
    ensures (forall k :: 0 <= k < n ==> path[k] == '/') && (n < |path| ==> path[n] != '/')
    decreases |path|
  {
    n := 0;
    if path != [] && path[0] == '/' {
      var m := StripsSlashes(path[1..]);
      n := m + 1;
      assert path[1..][m..] == path[n..];
      assert forall k :: 0 <= k < m ==> path[k + 1] == path[1..][k];
    }
  }

  lemma {:induction false} RenderPush(ops: seq<Op>, op: Op)
    ensures RenderAll(ops + [op]) == RenderAll(ops) + [Render(op)]
  {
    if ops == [] {
      assert [] + [op] == [op];
    } else {
      RenderPush(ops[1..], op);
      assert (ops + [op])[1..] == ops[1..] + [op];
    }
  }

  lemma {:induction false} HunkLinesPush(hunks: seq<Hunk>, h: Hunk)
    ensures HunkLines(hunks + [h]) == HunkLines(hunks) + ([Header(h)] + RenderAll(h.body))
  {
    if hunks == [] {
      assert [] + [h] == [h];
      assert HunkLines([h]) == [Header(h)] + (RenderAll(h.body) + []);
    } else {
      HunkLinesPush(hunks[1..], h);
      assert (hunks + [h])[1..] == hunks[1..] + [h];
      var first, body, rest, last := [Header(hunks[0])], RenderAll(hunks[0].body), HunkLines(hunks[1..]), [Header(h)] + RenderAll(h.body);
      FourParts(first, body, rest, last);
    }
  }

  lemma FourParts(a: seq<Line>, b: seq<Line>, c: seq<Line>, d: seq<Line>)
    ensures a + (b + (c + d)) == (a + (b + c)) + d
  {
  }

  lemma {:induction false} HunksOfPush(ops: seq<Op>, ranges: seq<Range>, r: nat)
    requires Bounded(ranges, |ops|) && r < |ranges|
    ensures HunksOf(ops, ranges[..r + 1]) == HunksOf(ops, ranges[..r]) + [HunkOf(ops, ranges[r])]
  {
    if r == 0 {
      assert ranges[..1] == [ranges[0]] && ranges[..0] == [];
    } else {
      var tail := ranges[1..];
      HunksOfPush(ops, tail, r - 1);
      assert ranges[..r + 1][1..] == tail[..r] && ranges[..r][1..] == tail[..r - 1];
      assert tail[r - 1] == ranges[r];
    }
  }

  /** The hunk of a range, its lines counted one by one. */
  method CountHunk(indexed: seq<Positioned>, range: Range, ghost ops: seq<Op>) returns (h: Hunk)
    requires Annotated(indexed, ops) && range.start <= range.end < |ops|
    ensures h == HunkOf(ops, range)
  {
    var slice: seq<Op> := [];
    var oldCount, newCount := 0, 0;
    for k := range.start to range.end + 1
      invariant slice == ops[range.start..k]
      invariant oldCount == |OldSide(slice)| && newCount == |NewSide(slice)|
    {
      var op := indexed[k].op;
      SidesPush(slice, op);
      slice := slice + [op];
      oldCount := oldCount + if op.Add? then 0 else 1;
      newCount := newCount + if op.Del? then 0 else 1;
    }
    var first := indexed[range.start];
    h := Hunk(if oldCount == 0 then 0 else first.oldPos, oldCount,
              if newCount == 0 then 0 else first.newPos, newCount, slice);
  }

  method PrintHunk(indexed: seq<Positioned>, range: Range, ghost ops: seq<Op>) returns (out: seq<Line>)
    requires Annotated(indexed, ops) && range.start <= range.end < |ops|
    ensures out == HunkLines([HunkOf(ops, range)])
  {
    var h := CountHunk(indexed, range, ops);
    out := [Header(h)];
    for k := 0 to |h.body|
      invariant out == [Header(h)] + RenderAll(h.body[..k])
    {
      out := out + [Render(h.body[k])];
      RenderPush(h.body[..k], h.body[k]);
      assert h.body[..k + 1] == h.body[..k] + [h.body[k]];
    }
    assert h.body[..|h.body|] == h.body;
    HunkLinesOne(h);
  }

  /** The text is the print of an optimal script, grouped with that much context. */
  ghost predicate Prints(text: string, filePath: string, oldText: string, newText: string, contextLines: nat,
                         ops: seq<Op>, ranges: seq<Range>)
  {
    && Optimal(ops, SplitLines(oldText), SplitLines(newText)) && DeletionsFirst(ops)
    && Grouped(ranges, ops, contextLines)
    && text == Join(DiffLines(StripSlashes(filePath), ops, ranges))
  }

  /** The text is these lines, and reads back as them when the path holds no newline. */
  ghost predicate TextOf(lines: seq<Line>, text: string, filePath: string) {
    text == Join(lines) && ('\n' !in filePath ==> Split(text) == lines)
  }

  /** The whole diff of two texts: with context, applying its lines to the old lines yields the new ones. */
  method BuildUnifiedDiff(filePath: string, oldText: string, newText: string, contextLines: nat) returns (text: string)
    ensures exists lines :: TextOf(lines, text, filePath)
              && (contextLines >= 1 ==> Patch(lines, SplitLines(oldText)) == Some(SplitLines(newText)))
    ensures exists ops, ranges :: Prints(text, filePath, oldText, newText, contextLines, ops, ranges)
  {
    var oldLines, newLines := SplitLines(oldText), SplitLines(newText);
    var ops := ComputeEditOps(oldLines, newLines);
    var indexed := Annotate(ops);
    var changeRanges := GroupChanges(indexed, contextLines, ops);
    var normalizedPath := StripSlashes(filePath);
    var out := ["--- a/" + normalizedPath, "+++ b/" + normalizedPath];
    for r := 0 to |changeRanges|
      invariant out == DiffLines(normalizedPath, ops, changeRanges[..r])
    {
      var lines := PrintHunk(indexed, changeRanges[r], ops);
      DiffLinesPush(normalizedPath, ops, changeRanges, r);
      out := out + lines;
    }
    assert changeRanges[..|changeRanges|] == changeRanges;
    text := Join(out);
    assert Prints(text, filePath, oldText, newText, contextLines, ops, changeRanges);
    PrintedMeaning(text, filePath, oldText, newText, contextLines, ops, changeRanges);
  }

  lemma DiffLinesPush(path: string, ops: seq<Op>, ranges: seq<Range>, r: nat)
    requires Bounded(ranges, |ops|) && r < |ranges|
    ensures DiffLines(path, ops, ranges[..r + 1]) == DiffLines(path, ops, ranges[..r]) + HunkLines([HunkOf(ops, ranges[r])])
  {
    var h := HunkOf(ops, ranges[r]);
    var before := HunksOf(ops, ranges[..r]);
    HunksOfPush(ops, ranges, r);
    HunkLinesPush(before, h);
    HunkLinesOne(h);
    AppendAssociates(["--- a/" + path, "+++ b/" + path], HunkLines(before), HunkLines([h]));
  }

  lemma AppendAssociates(a: seq<Line>, b: seq<Line>, c: seq<Line>)
    ensures a + (b + c) == a + b + c
  {
  }

  lemma HunkLinesOne(h: Hunk)
    ensures HunkLines([h]) == [Header(h)] + RenderAll(h.body)
  {
    HunkLinesPush([], h);
    assert [] + [h] == [h];
  }

  /** What the printed lines mean, for every context: the new lines exactly when every hunk is well placed, which context
      guarantees; otherwise they cannot be applied. The text reads back as them when the path holds no newline. */
  lemma PrintedMeaning(text: string, filePath: string, oldText: string, newText: string, contextLines: nat,
                       ops: seq<Op>, ranges: seq<Range>)
    requires Prints(text, filePath, oldText, newText, contextLines, ops, ranges)
    ensures Patch(DiffLines(StripSlashes(filePath), ops, ranges), SplitLines(oldText))
      == if contextLines >= 1 || AllWellPlaced(ops, ranges) then Some(SplitLines(newText)) else None
    ensures TextOf(DiffLines(StripSlashes(filePath), ops, ranges), text, filePath)
  {
    PatchOfDiff(StripSlashes(filePath), ops, ranges, contextLines);
    if '\n' !in filePath {
      PrintedLinesAreLines(filePath, oldText, newText, ops, ranges);
      SplitOfJoin(DiffLines(StripSlashes(filePath), ops, ranges));
    }
  }

  // ----- no printed line holds a newline -----

  ghost predicate NoNewlines(lines: seq<Line>) {
    forall k :: 0 <= k < |lines| ==> '\n' !in lines[k]
  }

  lemma SplitLinesHasNone(text: string)
    ensures NoNewlines(SplitLines(text))
  {
  }

  lemma {:induction false} StripKeepsNewlines(path: string)
    ensures '\n' in StripSlashes(path) <==> '\n' in path
  {
    if path != [] && path[0] == '/' {
      StripKeepsNewlines(path[1..]);
    }
  }

  lemma {:induction false} TextsComeFromFiles(ops: seq<Op>)
    requires NoNewlines(OldSide(ops)) && NoNewlines(NewSide(ops))
    ensures forall k :: 0 <= k < |ops| ==> '\n' !in ops[k].text
  {
    if ops != [] {
      assert !ops[0].Add? ==> OldSide(ops)[0] == ops[0].text && OldSide(ops)[1..] == OldSide(ops[1..]);
      assert !ops[0].Del? ==> NewSide(ops)[0] == ops[0].text && NewSide(ops)[1..] == NewSide(ops[1..]);
      TextsComeFromFiles(ops[1..]);
    }
  }

  lemma HeaderHasNone(h: Hunk)
    ensures '\n' !in Header(h)
  {
    assert forall s: string :: AllDigits(s) ==> '\n' !in s;
  }

  lemma {:induction false} RenderHasNone(ops: seq<Op>)
    requires forall k :: 0 <= k < |ops| ==> '\n' !in ops[k].text
    ensures NoNewlines(RenderAll(ops))
  {
    if ops != [] {
      RenderHasNone(ops[1..]);
    }
  }

  lemma {:induction false} HunkLinesHaveNone(hunks: seq<Hunk>)
    requires forall h, k :: h in hunks && 0 <= k < |h.body| ==> '\n' !in h.body[k].text
    ensures NoNewlines(HunkLines(hunks))
  {
    if hunks != [] {
      HeaderHasNone(hunks[0]);
      RenderHasNone(hunks[0].body);
      HunkLinesHaveNone(hunks[1..]);
    }
  }

  lemma {:induction false} BodiesComeFromScript(ops: seq<Op>, ranges: seq<Range>)
    requires Bounded(ranges, |ops|)
    ensures forall h, k :: h in HunksOf(ops, ranges) && 0 <= k < |h.body| ==> h.body[k] in ops
  {
    if ranges != [] {
      BodiesComeFromScript(ops, ranges[1..]);
    }
  }

  lemma HunkLinesAreLines(oldText: string, newText: string, ops: seq<Op>, ranges: seq<Range>)
    requires Bounded(ranges, |ops|) && Transforms(ops, SplitLines(oldText), SplitLines(newText))
    ensures NoNewlines(HunkLines(HunksOf(ops, ranges)))
  {
    SplitLinesHasNone(oldText);
    SplitLinesHasNone(newText);
    TextsComeFromFiles(ops);
    BodiesComeFromScript(ops, ranges);
    HunkLinesHaveNone(HunksOf(ops, ranges));
  }

  lemma PrintedLinesAreLines(path: string, oldText: string, newText: string, ops: seq<Op>, ranges: seq<Range>)
    requires '\n' !in path && Bounded(ranges, |ops|)
    requires Transforms(ops, SplitLines(oldText), SplitLines(newText))
    ensures NoNewlines(DiffLines(StripSlashes(path), ops, ranges))
  {
    StripKeepsNewlines(path);
    HunkLinesAreLines(oldText, newText, ops, ranges);
  }
}
