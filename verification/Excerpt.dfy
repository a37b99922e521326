/** The excerpt of a message that a list shows, computed on UTF-16 units (plurnk-contracts/src/Excerpt.ts). */
module Excerpt {

  import opened Utf16

  const TAB: Unit := 9
  const NEWLINE: Unit := 10
  const RETURN: Unit := 13
  const SPACE: Unit := 32

  predicate Blank(u: Unit) {
    u == SPACE || u == TAB || u == RETURN || u == NEWLINE
  }

  predicate High(u: Unit) {
    0xD800 <= u < 0xDC00
  }

  predicate Low(u: Unit) {
    0xDC00 <= u < 0xE000
  }

  /** How many units the first character of a text takes: two for a surrogate pair, one for anything else, a lone
      surrogate included. */
  function Width(text: seq<Unit>): nat
    requires text != []
  {
    if |text| >= 2 && High(text[0]) && Low(text[1]) then 2 else 1
  }

  /** The characters of a text, as Array.from splits it. */
  function Characters(text: seq<Unit>): (cs: seq<seq<Unit>>)
    decreases |text|
  {
    if text == [] then [] else [text[..Width(text)]] + Characters(text[Width(text)..])
  }

  /** The high and low units are the first and second of the pairs. */
  lemma SurrogatesExactly(u: Unit)
    ensures High(u) <==> exists c: char :: |Units(c)| == 2 && Units(c)[0] == u
    ensures Low(u) <==> exists c: char :: |Units(c)| == 2 && Units(c)[1] == u
  {
    if High(u) {
      var c := (0x10000 + (u - 0xD800) * 0x400) as char;
      assert Units(c)[0] == u;
    }
    if Low(u) {
      var c := (0x10000 + (u - 0xDC00)) as char;
      assert Units(c)[1] == u;
    }
  }

  function UnitsOfEach(text: string): seq<seq<Unit>> {
    if text == [] then [] else [Units(text[0])] + UnitsOfEach(text[1..])
  }

  /** The characters of an encoded text are the encodings of its characters. */
  lemma {:induction false} CharactersOfText(text: string)
    ensures Characters(Encode(text)) == UnitsOfEach(text)
  {
    if text != [] {
      var first, rest := Units(text[0]), Encode(text[1..]);
      CharactersOfText(text[1..]);
      assert (first + rest)[..|first|] == first && (first + rest)[|first|..] == rest;
      assert Width(first + rest) == |first|;
    }
  }

  function Flatten(cs: seq<seq<Unit>>): seq<Unit> {
    if cs == [] then [] else cs[0] + Flatten(cs[1..])
  }

  /** At most the first `n` characters. */
  function Take(cs: seq<seq<Unit>>, n: nat): seq<seq<Unit>> {
    if n < |cs| then cs[..n] else cs
  }

  /** Without the spaces, tabs and carriage returns at its end. */
  function TrimEnd(text: seq<Unit>): (r: seq<Unit>)
    ensures |r| <= |text| && r == text[..|r|]
    ensures forall k :: |r| <= k < |text| ==> Blank(text[k])
    ensures r != [] ==> r[|r| - 1] !in {SPACE, TAB, RETURN}
    decreases |text|
  {
    if text != [] && text[|text| - 1] in {SPACE, TAB, RETURN} then TrimEnd(text[..|text| - 1]) else text
  }

  function Start(text: seq<Unit>): (at: nat)
    ensures at <= |text|
    ensures forall k :: 0 <= k < at ==> Blank(text[k])
    ensures at < |text| ==> !Blank(text[at])
    decreases |text|
  {
    if text != [] && Blank(text[0]) then 1 + Start(text[1..]) else 0
  }

  function IndexOf(text: seq<Unit>, u: Unit, from: nat): (at: int)
    requires from <= |text|
    ensures at == -1 || from <= at < |text|
    ensures at == -1 ==> forall k :: from <= k < |text| ==> text[k] != u
    ensures at != -1 ==> text[at] == u && forall k :: from <= k < at ==> text[k] != u
    decreases |text| - from
  {
    if from == |text| then -1 else if text[from] == u then from else IndexOf(text, u, from + 1)
  }

  function LineEnd(text: seq<Unit>): (end: nat)
    ensures Start(text) <= end <= |text|
    ensures end < |text| ==> text[end] == NEWLINE
    ensures forall k :: Start(text) <= k < end ==> text[k] != NEWLINE
  {
    var i := IndexOf(text, NEWLINE, Start(text));
    if i < 0 then |text| else i
  }

  /** `piece` stands in the text at position `at`. */
  predicate StandsAt(piece: seq<Unit>, text: seq<Unit>, at: nat) {
    at + |piece| <= |text| && forall k: nat :: k < |piece| ==> piece[k] == text[at + k]
  }

  /** The first line holding anything but blanks, from its first non-blank on. */
  function FirstLine(text: seq<Unit>): (line: seq<Unit>)
    ensures StandsAt(line, text, Start(text))
    ensures Start(text) + |line| < |text| ==> text[Start(text) + |line|] == NEWLINE
    ensures NEWLINE !in line
  {
    text[Start(text)..LineEnd(text)]
  }

  /** What a line shows: its first `chars` characters, trimmed at the end. */
  function Shown(line: seq<Unit>, chars: nat): seq<Unit> {
    TrimEnd(Flatten(Take(Characters(line), chars)))
  }

  /** What an excerpt is, however long the line. */
  function Definition(text: seq<Unit>, chars: nat): seq<Unit> {
    Shown(FirstLine(text), chars)
  }

  /** Position `at` lies inside a surrogate pair. */
  predicate Splits(text: seq<Unit>, at: nat) {
    0 < at < |text| && High(text[at - 1]) && Low(text[at])
  }

  // ----- the bounded window -----

  /** Any window of at least twice `n` units holds the first `n` characters whole. */
  lemma {:induction false} WindowSuffices(line: seq<Unit>, w: nat, n: nat)
    requires 2 * n <= w <= |line|
    ensures Take(Characters(line[..w]), n) == Take(Characters(line), n)
    decreases n
  {
    if n > 0 {
      var k := Width(line);
      assert line[..w][..k] == line[..k] && line[..w][k..] == line[k..][..w - k];
      WindowSuffices(line[k..], w - k, n - 1);
      TakeFirst(line[..k], Characters(line[k..]), n);
      TakeFirst(line[..k], Characters(line[..w][k..]), n);
    }
  }

  lemma TakeFirst(c: seq<Unit>, cs: seq<seq<Unit>>, n: nat)
    requires n > 0
    ensures Take([c] + cs, n) == [c] + Take(cs, n - 1)
  {
  }

  method ExcerptOf(text: seq<Unit>, chars: nat) returns (excerpt: seq<Unit>, continued: bool)
    ensures excerpt == Definition(text, chars)
    ensures continued <==> exists k :: Start(text) + |excerpt| <= k < |text| && !Blank(text[k])
  {
    var at := 0;
    while at < |text| && Blank(text[at])
      invariant at <= |text|
      invariant forall k :: 0 <= k < at ==> Blank(text[k])
    {
      at := at + 1;
    }
    StartIsUnique(text, at);
    var lineEnd := IndexOf(text, NEWLINE, at);
    var end := if lineEnd < 0 then |text| else lineEnd;
    var bound := if end < at + chars * 2 then end else at + chars * 2;
    ShownInWindow(text, at, end, bound, chars);
    excerpt := TrimEnd(Flatten(Take(Characters(text[at..bound]), chars)));
    ShownIsPrefix(FirstLine(text), chars);
    continued := exists k :: at + |excerpt| <= k < |text| && !Blank(text[k]);
  }

  lemma ShownInWindow(text: seq<Unit>, at: nat, end: nat, bound: nat, chars: nat)
    requires at <= end <= |text| && bound == if end < at + chars * 2 then end else at + chars * 2
    ensures Shown(text[at..bound], chars) == Shown(text[at..end], chars)
  {
    if bound < end {
      assert text[at..bound] == text[at..end][..chars * 2];
      WindowSuffices(text[at..end], chars * 2, chars);
    }
  }

  lemma {:induction false} StartIsUnique(text: seq<Unit>, at: nat)
    requires at <= |text| && (forall k :: 0 <= k < at ==> Blank(text[k])) && (at < |text| ==> !Blank(text[at]))
    ensures Start(text) == at
  {
    var s := Start(text);
    assert s < |text| ==> !Blank(text[s]);
    assert at < |text| ==> !Blank(text[at]);
  }

  // ----- what the definition promises -----

  /** Putting characters back together gives the text they came from, cut between two of its characters. */
  lemma {:induction false} TakeIsPrefix(text: seq<Unit>, n: nat)
    ensures var p := Flatten(Take(Characters(text), n)); |p| <= |text| && p == text[..|p|]
    ensures !Splits(text, |Flatten(Take(Characters(text), n))|)
    ensures n > 0 && text != [] ==> Flatten(Take(Characters(text), n)) != []
    decreases |text|
  {
    if text != [] && n > 0 {
      var k := Width(text);
      TakeIsPrefix(text[k..], n - 1);
      TakeFirst(text[..k], Characters(text[k..]), n);
      var rest := Flatten(Take(Characters(text[k..]), n - 1));
      var p := Flatten(Take(Characters(text), n));
      assert p == text[..k] + rest;
      assert p == text[..|p|];
      if 0 < |p| < |text| && rest == [] {
        assert |p| == k;
      }
    }
  }

  /** What a line shows is its beginning, without a blank at the end and without half of a pair. */
  lemma ShownIsPrefix(line: seq<Unit>, chars: nat)
    requires NEWLINE !in line
    ensures |Shown(line, chars)| <= |line| && Shown(line, chars) == line[..|Shown(line, chars)|]
    ensures Shown(line, chars) != [] ==> !Blank(Shown(line, chars)[|Shown(line, chars)| - 1])
    ensures !Splits(line, |Shown(line, chars)|)
  {
    TakeIsPrefix(line, chars);
    TrimmedPrefix(line, Flatten(Take(Characters(line), chars)));
  }

  lemma TrimmedPrefix(line: seq<Unit>, whole: seq<Unit>)
    requires |whole| <= |line| && whole == line[..|whole|] && !Splits(line, |whole|) && NEWLINE !in line
    ensures var e := TrimEnd(whole);
      && |e| <= |line| && e == line[..|e|]
      && (e != [] ==> !Blank(e[|e| - 1]))
      && !Splits(line, |e|)
  {
    var e := TrimEnd(whole);
    if |e| < |whole| {
      assert line[|e|] == whole[|e|];
    }
    if e != [] {
      assert e[|e| - 1] == line[|e| - 1] && line[|e| - 1] in line;
    }
  }

  /** An excerpt is a piece of the text: it starts at the first non-blank, stays on that line and ends without a
      blank. */
  lemma ExcerptIsAPiece(text: seq<Unit>, chars: nat)
    ensures var at, e := Start(text), Definition(text, chars);
      && StandsAt(e, text, at)
      && NEWLINE !in e
      && (e != [] ==> !Blank(e[|e| - 1]))
  {
    ShownInText(text, Start(text), FirstLine(text), chars);
  }

  /** Neither end of the excerpt falls inside a surrogate pair that is whole in the text. */
  lemma PairsStayWhole(text: seq<Unit>, chars: nat)
    ensures !Splits(text, Start(text))
    ensures Definition(text, chars) != [] ==> !Splits(text, Start(text) + |Definition(text, chars)|)
  {
    StartsWhole(text, Start(text));
    DefinitionEndsWhole(text, chars);
  }

  lemma DefinitionEndsWhole(text: seq<Unit>, chars: nat)
    ensures Definition(text, chars) != [] ==> !Splits(text, Start(text) + |Definition(text, chars)|)
  {
    var at := Start(text);
    var line := FirstLine(text);
    assert StandsAt(line, text, at) && NEWLINE !in line;
    ShownInText(text, at, line, chars);
  }

  lemma StartsWhole(text: seq<Unit>, at: nat)
    requires at <= |text| && forall k :: 0 <= k < at ==> Blank(text[k])
    ensures !Splits(text, at)
  {
  }

  lemma ShownInText(text: seq<Unit>, at: nat, line: seq<Unit>, chars: nat)
    requires StandsAt(line, text, at) && NEWLINE !in line
    requires at + |line| < |text| ==> text[at + |line|] == NEWLINE
    ensures var e := Shown(line, chars);
      && StandsAt(e, text, at) && NEWLINE !in e
      && (e != [] ==> !Blank(e[|e| - 1]) && !Splits(text, at + |e|))
  {
    ShownIsPrefix(line, chars);
    PieceOfLine(text, at, line, |Shown(line, chars)|);
  }

  lemma PieceOfLine(text: seq<Unit>, at: nat, line: seq<Unit>, k: nat)
    requires StandsAt(line, text, at) && k <= |line|
    requires at + |line| < |text| ==> text[at + |line|] == NEWLINE
    ensures StandsAt(line[..k], text, at)
    ensures 0 < k && !Splits(line, k) ==> !Splits(text, at + k)
  {
    if 0 < k < |line| {
      assert text[at + k - 1] == line[k - 1] && text[at + k] == line[k];
    }
  }

  /** It holds at most `chars` characters. */
  lemma ExcerptIsShort(text: seq<Unit>, chars: nat)
    ensures |Characters(Definition(text, chars))| <= chars
  {
    var line := FirstLine(text);
    var taken := Flatten(Take(Characters(line), chars));
    TakenCharacters(line, chars);
    FewerUnitsFewerCharacters(taken, |TrimEnd(taken)|);
  }

  lemma {:induction false} TakenCharacters(text: seq<Unit>, n: nat)
    ensures Characters(Flatten(Take(Characters(text), n))) == Take(Characters(text), n)
    decreases |text|
  {
    if text != [] && n > 0 {
      var k := Width(text);
      TakeFirst(text[..k], Characters(text[k..]), n);
      TakenCharacters(text[k..], n - 1);
      var rest := Flatten(Take(Characters(text[k..]), n - 1));
      TakeIsPrefix(text[k..], n - 1);
      var p := text[..k] + rest;
      assert Flatten(Take(Characters(text), n)) == p;
      assert Width(p) == k && p[..k] == text[..k] && p[k..] == rest;
    }
  }

  lemma {:induction false} FewerUnitsFewerCharacters(text: seq<Unit>, m: nat)
    requires m <= |text|
    ensures |Characters(text[..m])| <= |Characters(text)|
    decreases |text|
  {
    if m > 0 {
      var k := Width(text);
      if m < k {
        assert Characters(text[..m][1..]) == [];
      } else {
        assert Width(text[..m]) == k || k == 1;
        assert text[..m][k..] == text[k..][..m - k];
        FewerUnitsFewerCharacters(text[k..], m - k);
      }
    }
  }

  /** Nothing is shown exactly when there is nothing but blanks, or no character was asked for. */
  lemma EmptyExcerpt(text: seq<Unit>, chars: nat)
    ensures Definition(text, chars) == [] <==> chars == 0 || forall k :: 0 <= k < |text| ==> Blank(text[k])
  {
    var line := FirstLine(text);
    TakeIsPrefix(line, chars);
    if chars > 0 && Start(text) < |text| {
      assert line[0] == text[Start(text)] && !Blank(line[0]);
      var whole := Flatten(Take(Characters(line), chars));
      assert whole[0] == line[0];
    }
  }

  /** The piece stands at `at` with nothing but blanks around it. */
  ghost predicate InBlanks(text: seq<Unit>, piece: seq<Unit>, at: nat) {
    StandsAt(piece, text, at) && forall k: nat :: k < |text| && !(at <= k < at + |piece|) ==> Blank(text[k])
  }

  /** Nothing but blanks follows the excerpt exactly when the whole text is the excerpt with blanks around it. */
  lemma NotContinuedExactly(text: seq<Unit>, chars: nat)
    ensures (forall k :: Start(text) + |Definition(text, chars)| <= k < |text| ==> Blank(text[k]))
      <==> exists at: nat :: InBlanks(text, Definition(text, chars), at)
  {
    ExcerptIsAPiece(text, chars);
    BlanksAround(text, Start(text), Definition(text, chars));
  }

  lemma BlanksAround(text: seq<Unit>, start: nat, e: seq<Unit>)
    requires StandsAt(e, text, start)
    requires (forall k :: 0 <= k < start ==> Blank(text[k])) && (start < |text| ==> !Blank(text[start]))
    ensures (forall k :: start + |e| <= k < |text| ==> Blank(text[k])) <==> exists at: nat :: InBlanks(text, e, at)
  {
    if forall k :: start + |e| <= k < |text| ==> Blank(text[k]) {
      assert InBlanks(text, e, start);
    }
    if at: nat :| InBlanks(text, e, at) {
      if e != [] {
        assert e[0] == text[start + 0] == text[at + 0];
        assert at == start;
      }
    }
  }
}
