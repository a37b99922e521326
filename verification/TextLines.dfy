/** Texts as the lines between their newlines. */
module TextLines {

  type Line = string

  /** The pieces of `text` between its newlines. */
  function Split(text: string): (lines: seq<Line>)
    ensures lines != []
    ensures forall k :: 0 <= k < |lines| ==> '\n' !in lines[k]
  {
    if text == [] then [[]]
    else if text[0] == '\n' then [[]] + Split(text[1..])
    else
      var rest := Split(text[1..]);
      [[text[0]] + rest[0]] + rest[1..]
  }

  function Join(lines: seq<Line>): string {
    if lines == [] then []
    else if |lines| == 1 then lines[0]
    else lines[0] + "\n" + Join(lines[1..])
  }

  function SplitLines(text: string): seq<Line> {
    if text == [] then []
    else
      var lines := Split(text);
      if lines[|lines| - 1] == [] then lines[..|lines| - 1] else lines
  }

  lemma {:induction false} JoinOfSplit(text: string)
    ensures Join(Split(text)) == text
  {
    if text != [] {
      JoinOfSplit(text[1..]);
      var rest := Split(text[1..]);
      if text[0] == '\n' {
        assert Split(text)[1..] == rest;
      } else {
        assert Split(text)[1..] == rest[1..];
        assert text == [text[0]] + text[1..];
      }
    }
  }

  lemma {:induction false} SplitFirstLine(line: Line, text: string)
    requires '\n' !in line
    ensures Split(line + "\n" + text) == [line] + Split(text)
    ensures Split(line) == [line]
  {
    if line == [] {
      assert (line + "\n" + text)[1..] == text;
    } else {
      SplitFirstLine(line[1..], text);
      assert (line + "\n" + text)[1..] == line[1..] + "\n" + text;
      assert [line[0]] + line[1..] == line;
    }
  }

  lemma {:induction false} SplitOfJoin(lines: seq<Line>)
    requires lines != [] && forall k :: 0 <= k < |lines| ==> '\n' !in lines[k]
    ensures Split(Join(lines)) == lines
  {
    if |lines| == 1 {
      SplitFirstLine(lines[0], []);
    } else {
      SplitOfJoin(lines[1..]);
      SplitFirstLine(lines[0], Join(lines[1..]));
    }
  }

  /** `SplitLines` forgets one final newline and nothing else. */
  lemma SplitLinesKeepsText(text: string)
    ensures var joined := Join(SplitLines(text)); text == joined || text == joined + "\n"
  {
    if text != [] {
      JoinOfSplit(text);
      var lines := Split(text);
      if lines[|lines| - 1] == [] {
        JoinWithEmptyEnd(lines);
      }
    }
  }

  lemma {:induction false} SplitOfEnded(text: string)
    ensures Split(text + "\n") == Split(text) + [[]]
  {
    if text == [] {
      assert ("\n")[1..] == "" && Split("") == [[]];
      assert [] + "\n" == "\n";
    } else {
      SplitOfEnded(text[1..]);
      assert (text + "\n")[1..] == text[1..] + "\n";
    }
  }

  /** The lines of a text: none of an empty one, and a newline at the end begins no further line. */
  lemma SplitLinesExactly(text: string)
    ensures SplitLines("") == []
    ensures SplitLines(text + "\n") == Split(text)
    ensures text != [] && text[|text| - 1] != '\n' ==> SplitLines(text) == Split(text)
  {
    SplitOfEnded(text);
    if text != [] && text[|text| - 1] != '\n' {
      LastLineIsNotEmpty(text);
    }
  }

  lemma {:induction false} LastLineIsNotEmpty(text: string)
    requires text != [] && text[|text| - 1] != '\n'
    ensures Split(text)[|Split(text)| - 1] != []
  {
    if |text| > 1 {
      LastLineIsNotEmpty(text[1..]);
    }
  }

  lemma {:induction false} JoinWithEmptyEnd(lines: seq<Line>)
    requires |lines| > 1 && lines[|lines| - 1] == []
    ensures Join(lines) == Join(lines[..|lines| - 1]) + "\n"
  {
    var init := lines[..|lines| - 1];
    if |lines| == 2 {
      assert Join(lines) == lines[0] + "\n" + Join(lines[1..]);
    } else {
      JoinWithEmptyEnd(lines[1..]);
      assert init[1..] == lines[1..][..|lines[1..]| - 1];
    }
  }
}
