/** What the text of a diff means, whatever its file path: with a newline in the path it cannot be read back. */
module DiffPath {
  import opened EditScript
  import opened Lcs
  import opened Optional
  import opened TextLines
  import opened UnifiedDiff

  // ----- the reader line by line -----

  /** How many old and new lines the reader still expects of a hunk. */
  datatype Left = Left(old_: nat, new_: nat)

  const DONE := Left(0, 0)

  /** One line: a header when nothing is expected, else a marked line. */
  function Feed(l: Left, line: Line): Option<Left> {
    if l == DONE then
      var h :- ParseHeader(line);
      Some(Left(h.oldCount, h.newCount))
    else if line == "" then None
    else if line[0] == ' ' && l.old_ > 0 && l.new_ > 0 then Some(Left(l.old_ - 1, l.new_ - 1))
    else if line[0] == '-' && l.old_ > 0 then Some(Left(l.old_ - 1, l.new_))
    else if line[0] == '+' && l.new_ > 0 then Some(Left(l.old_, l.new_ - 1))
    else None
  }

  function FeedAll(l: Left, lines: seq<Line>): Option<Left>
    decreases |lines|
  {
    if lines == [] then Some(l)
    else
      var next :- Feed(l, lines[0]);
      FeedAll(next, lines[1..])
  }

  lemma {:induction false} FeedJoins(l: Left, a: seq<Line>, b: seq<Line>)
    ensures FeedAll(l, a + b) == if FeedAll(l, a).Some? then FeedAll(FeedAll(l, a).value, b) else None
    decreases |a|
  {
    if a == [] {
      assert a + b == b;
    } else {
      assert (a + b)[0] == a[0] && (a + b)[1..] == a[1..] + b;
      if Feed(l, a[0]).Some? {
        FeedJoins(Feed(l, a[0]).value, a[1..], b);
      }
    }
  }

  lemma BodyStep(lines: seq<Line>, o: nat, n: nat) returns (next: Left)
    requires ParseBody(lines, o, n).Some? && (o != 0 || n != 0)
    ensures lines != [] && Feed(Left(o, n), lines[0]) == Some(next)
    ensures ParseBody(lines[1..], next.old_, next.new_).Some?
    ensures ParseBody(lines[1..], next.old_, next.new_).value.1 == ParseBody(lines, o, n).value.1
  {
    next := if lines[0][0] == ' ' then Left(o - 1, n - 1) else if lines[0][0] == '-' then Left(o - 1, n) else Left(o, n - 1);
  }

  lemma {:induction false} BodyFeeds(lines: seq<Line>, o: nat, n: nat)
    requires ParseBody(lines, o, n).Some?
    ensures FeedAll(Left(o, n), lines) == FeedAll(DONE, ParseBody(lines, o, n).value.1)
    decreases |lines|
  {
    if o != 0 || n != 0 {
      var next := BodyStep(lines, o, n);
      BodyFeeds(lines[1..], next.old_, next.new_);
    }
  }

  /** Lines that read as hunks leave nothing expected. */
  lemma {:induction false} HunksFeed(lines: seq<Line>)
    requires ParseHunks(lines).Some?
    ensures FeedAll(DONE, lines) == Some(DONE)
    decreases |lines|
  {
    if lines != [] {
      var h := ParseHeader(lines[0]).value;
      BodyFeeds(lines[1..], h.oldCount, h.newCount);
      ParseBodyShrinks(lines[1..], h.oldCount, h.newCount);
      HunksFeed(ParseBody(lines[1..], h.oldCount, h.newCount).value.1);
    }
  }

  // ----- the path's own lines between the file lines -----

  predicate Plus(line: Line) {
    "+++ " <= line
  }

  lemma PlusFeeds(l: Left, line: Line)
    requires Plus(line)
    ensures Feed(l, line) == if l.new_ > 0 then Some(Left(l.old_, l.new_ - 1)) else None
  {
    assert line[0] == "+++ "[0];
  }

  lemma HeaderFeeds(l: Left, line: Line)
    requires ParseHeader(line).Some? && l != DONE
    ensures Feed(l, line) == None
  {
    assert line[0] == "@@ -"[0];
  }

  /** What follows the two file lines cannot be read: the rest of the path, the second file line with the path's second,
      the rest of the path again and the hunks. */
  lemma RepeatedPathFails(rest: seq<Line>, a: Line, b: Line, hunks: seq<Line>)
    requires Plus(a) && Plus(b) && (hunks != [] ==> ParseHeader(hunks[0]).Some?)
    ensures ParseHunks(rest + ([a, b] + (rest + hunks))) == None
  {
    if ParseHunks(rest + ([a, b] + (rest + hunks))).Some? {
      HunksFeed(rest + ([a, b] + (rest + hunks)));
      FeedJoins(DONE, rest, [a, b] + (rest + hunks));
      var l := FeedAll(DONE, rest).value;
      FeedJoins(l, [a, b], rest + hunks);
      TwoPlus(l, a, b);
      var m := Left(l.old_, l.new_ - 2);
      FeedJoins(m, rest, hunks);
      RestAgain(rest, l, m);
      HunksAfter(l, hunks);
    }
  }

  lemma TwoPlus(l: Left, a: Line, b: Line)
    requires Plus(a) && Plus(b)
    ensures FeedAll(l, [a, b]) == if l.new_ > 1 then Some(Left(l.old_, l.new_ - 2)) else None
  {
    FeedTwo(l, a, b);
    PlusFeeds(l, a);
    if l.new_ > 0 {
      PlusFeeds(Left(l.old_, l.new_ - 1), b);
    }
  }

  lemma FeedTwo(l: Left, a: Line, b: Line)
    ensures FeedAll(l, [a, b]) == if Feed(l, a).Some? then Feed(Feed(l, a).value, b) else None
  {
    assert [a, b][1..] == [b] && [b][1..] == [];
    if Feed(l, a).Some? {
      var m := Feed(l, a).value;
      assert FeedAll(m, [b]) == Feed(m, b);
    }
  }

  /** The rest of the path begins with a header the first time, so it is read the second time only when nothing is
      expected. */
  lemma RestAgain(rest: seq<Line>, l: Left, m: Left)
    requires FeedAll(DONE, rest) == Some(l) && l != DONE && FeedAll(m, rest).Some?
    ensures m == DONE
  {
    assert rest != [] && ParseHeader(rest[0]).Some?;
    if m != DONE {
      HeaderFeeds(m, rest[0]);
    }
  }

  lemma HunksAfter(l: Left, hunks: seq<Line>)
    requires l != DONE && (hunks != [] ==> ParseHeader(hunks[0]).Some?)
    ensures FeedAll(l, hunks) != Some(DONE)
  {
    if hunks != [] {
      HeaderFeeds(l, hunks[0]);
    }
  }

  // ----- the lines of the text -----

  lemma {:induction false} SplitAppend(a: string, b: string)
    ensures Split(a + "\n" + b) == Split(a) + Split(b)
    decreases |a|
  {
    if a == [] {
      SplitFirstLine(a, b);
    } else {
      SplitAppend(a[1..], b);
      SplitStep(a);
      var text := a + "\n" + b;
      SplitStep(text);
      OneMoreChar(a[0], Split(a[1..]), Split(b));
      assert text[0] == a[0];
      assert text[1..] == a[1..] + "\n" + b;
      assert Split(text[1..]) == Split(a[1..]) + Split(b);
      assert Split(text) == Grown(a[0], Split(a[1..]) + Split(b));
    }
  }

  function Grown(c: char, lines: seq<Line>): seq<Line>
    requires lines != []
  {
    if c == '\n' then [[]] + lines else [[c] + lines[0]] + lines[1..]
  }

  lemma SplitStep(text: string)
    requires text != []
    ensures Split(text) == Grown(text[0], Split(text[1..]))
  {
  }

  lemma OneMoreChar(c: char, a: seq<Line>, b: seq<Line>)
    requires a != []
    ensures Grown(c, a + b) == Grown(c, a) + b
  {
    if c != '\n' {
      assert (a + b)[0] == a[0] && (a + b)[1..] == a[1..] + b;
    }
  }

  lemma {:induction false} SplitPrefixed(head: string, path: string)
    requires '\n' !in head
    ensures Split(head + path) == [head + Split(path)[0]] + Split(path)[1..]
    decreases |head|
  {
    if head == [] {
      assert head + path == path && head + Split(path)[0] == Split(path)[0];
    } else {
      SplitPrefixed(head[1..], path);
      SplitStep(head + path);
      assert (head + path)[0] == head[0] && (head + path)[1..] == head[1..] + path;
      var first := head[1..] + Split(path)[0];
      assert Split(head + path) == Grown(head[0], [first] + Split(path)[1..]);
      assert [head[0]] + first == head + Split(path)[0];
    }
  }

  lemma SplitOfDiff(a: string, b: string, lines: seq<Line>)
    requires forall k :: 0 <= k < |lines| ==> '\n' !in lines[k]
    ensures Split(Join([a, b] + lines)) == Split(a) + (Split(b) + lines)
  {
    var all := [a, b] + lines;
    assert all[1..] == [b] + lines && all[1..][1..] == lines;
    if lines == [] {
      assert Join(all) == a + "\n" + b;
      SplitAppend(a, b);
      assert Split(b) + lines == Split(b);
    } else {
      assert Join([b] + lines) == b + "\n" + Join(lines);
      assert Join(all) == a + "\n" + Join([b] + lines);
      SplitAppend(a, Join([b] + lines));
      SplitAppend(b, Join(lines));
      SplitOfJoin(lines);
    }
  }

  /** The lines of the text, when the path has more than one. */
  lemma LinesOfText(path: string, lines: seq<Line>)
    requires forall k :: 0 <= k < |lines| ==> '\n' !in lines[k]
    requires |Split(path)| > 1
    ensures var p := Split(path);
      Split(Join(["--- a/" + path, "+++ b/" + path] + lines))
        == ["--- a/" + p[0], p[1]] + (p[2..] + (["+++ b/" + p[0], p[1]] + (p[2..] + lines)))
  {
    var p := Split(path);
    SplitOfDiff("--- a/" + path, "+++ b/" + path, lines);
    FileLine("--- a/", path);
    FileLine("+++ b/", path);
    Regroup("--- a/" + p[0], p[1], p[2..], "+++ b/" + p[0], lines);
  }

  lemma FileLine(head: string, path: string)
    requires '\n' !in head && |Split(path)| > 1
    ensures Split(head + path) == [head + Split(path)[0]] + ([Split(path)[1]] + Split(path)[2..])
  {
    SplitPrefixed(head, path);
    Uncons(Split(path));
  }

  lemma Uncons(lines: seq<Line>)
    requires |lines| > 1
    ensures lines[1..] == [lines[1]] + lines[2..]
  {
  }

  lemma Regroup(a: Line, second: Line, rest: seq<Line>, b: Line, lines: seq<Line>)
    ensures ([a] + ([second] + rest)) + (([b] + ([second] + rest)) + lines)
         == [a, second] + (rest + ([b, second] + (rest + lines)))
  {
  }

  lemma {:induction false} SplitHasNewline(path: string)
    ensures |Split(path)| > 1 <==> '\n' in path
    decreases |path|
  {
    if path != [] && path[0] != '\n' {
      SplitHasNewline(path[1..]);
    }
  }

  lemma FirstIsHeader(ops: seq<Op>, ranges: seq<Range>)
    requires Bounded(ranges, |ops|)
    ensures var lines := HunkLines(HunksOf(ops, ranges)); lines != [] ==> ParseHeader(lines[0]).Some?
  {
    var hunks := HunksOf(ops, ranges);
    if hunks != [] {
      HunkLinesUnfold(hunks, HunkLines(hunks));
      ReadHeader(hunks[0]);
    }
  }

  lemma PathUnreadable(path: string, lines: seq<Line>, old_: seq<Line>)
    requires forall k :: 0 <= k < |lines| ==> '\n' !in lines[k]
    requires lines != [] ==> ParseHeader(lines[0]).Some?
    requires |Split(path)| > 1
    ensures Patch(Split(Join(["--- a/" + path, "+++ b/" + path] + lines)), old_) == None
  {
    var p, all := Split(path), Split(Join(["--- a/" + path, "+++ b/" + path] + lines));
    LinesOfText(path, lines);
    var rest, b := p[2..], "+++ b/" + p[0];
    assert all[1] == p[1] && all[2..] == rest + ([b, p[1]] + (rest + lines));
    if Plus(p[1]) {
      assert Plus(b);
      RepeatedPathFails(rest, b, p[1], lines);
    }
    assert ParseDiff(all) == None;
  }

  /** What the printed text means, for every path and context: the new lines exactly when the path holds no newline and all
      hunks are well placed, which context guarantees; otherwise it cannot be applied. */
  lemma TextMeaning(text: string, filePath: string, oldText: string, newText: string, contextLines: nat,
                    ops: seq<Op>, ranges: seq<Range>)
    requires Prints(text, filePath, oldText, newText, contextLines, ops, ranges)
    ensures Patch(Split(text), SplitLines(oldText))
      == if '\n' !in filePath && (contextLines >= 1 || AllWellPlaced(ops, ranges)) then Some(SplitLines(newText)) else None
  {
    PrintedMeaning(text, filePath, oldText, newText, contextLines, ops, ranges);
    if '\n' in filePath {
      var path := StripSlashes(filePath);
      StripKeepsNewlines(filePath);
      SplitHasNewline(path);
      HunkLinesAreLines(oldText, newText, ops, ranges);
      FirstIsHeader(ops, ranges);
      PathUnreadable(path, HunkLines(HunksOf(ops, ranges)), SplitLines(oldText));
    }
  }

  /** With context the text yields the new lines exactly when the path holds no newline. */
  lemma TextYieldsExactly(text: string, filePath: string, oldText: string, newText: string, contextLines: nat,
                          ops: seq<Op>, ranges: seq<Range>)
    requires Prints(text, filePath, oldText, newText, contextLines, ops, ranges) && contextLines >= 1
    ensures Patch(Split(text), SplitLines(oldText)) == Some(SplitLines(newText)) <==> '\n' !in filePath
  {
    TextMeaning(text, filePath, oldText, newText, contextLines, ops, ranges);
  }
}
