/** Generated JSON results: one valid JSON value whose outermost array has one physical line for each item
    (plurnk-contracts/src/JsonResult.ts). */
module JsonResult {

  import opened JsonText
  import opened Optional
  import opened TextLines

  /** What the scanner remembers between two characters. */
  datatype Scan = Scan(depth: int, quoted: bool, escaped: bool)

  datatype Outcome = Rendered(text: string) | TypeError(message: string)

  function Next(s: Scan, c: char): Scan {
    if s.quoted then
      if s.escaped then s.(escaped := false)
      else if c == '\\' then s.(escaped := true)
      else if c == '"' then s.(quoted := false)
      else s
    else if c == '"' then s.(quoted := true)
    else if c == '[' || c == '{' then s.(depth := s.depth + 1)
    else if c == ']' || c == '}' then s.(depth := s.depth - 1)
    else s
  }

  function Emitted(s: Scan, c: char): string {
    if !s.quoted && c == ',' && s.depth == 1 then [c, '\n'] else [c]
  }

  function After(s: Scan, text: string): Scan
    decreases |text|
  {
    if text == [] then s else After(Next(s, text[0]), text[1..])
  }

  function Emission(s: Scan, text: string): string
    decreases |text|
  {
    if text == [] then [] else Emitted(s, text[0]) + Emission(Next(s, text[0]), text[1..])
  }

  /** Scanning `text` from `s` comes back to `s` and writes `out`. */
  ghost predicate Scans(s: Scan, text: string, out: string) {
    After(s, text) == s && Emission(s, text) == out
  }

  lemma {:induction false} ScanSplits(s: Scan, a: string, b: string)
    ensures After(s, a + b) == After(After(s, a), b)
    ensures Emission(s, a + b) == Emission(s, a) + Emission(After(s, a), b)
    decreases |a|
  {
    if a == [] {
      assert a + b == b;
    } else {
      ScanSplits(Next(s, a[0]), a[1..], b);
      assert (a + b)[1..] == a[1..] + b;
      Associates(Emitted(s, a[0]), Emission(Next(s, a[0]), a[1..]), Emission(After(s, a), b));
    }
  }

  lemma ScansBoth(s: Scan, a: string, outA: string, b: string, outB: string)
    requires Scans(s, a, outA) && Scans(s, b, outB)
    ensures Scans(s, a + b, outA + outB)
  {
    ScanSplits(s, a, b);
  }

  lemma ScansOne(s: Scan, c: char)
    ensures After(s, [c]) == Next(s, c) && Emission(s, [c]) == Emitted(s, c)
  {
    assert [c][1..] == [];
    assert Emission(Next(s, c), []) == [];
  }

  /** Brackets around a text scanned one level deeper. */
  lemma ScansInside(s: Scan, inner: Scan, open: char, text: string, out: string, close: char)
    requires Next(s, open) == inner && Next(inner, close) == s
    requires Emitted(s, open) == [open] && Emitted(inner, close) == [close]
    requires Scans(inner, text, out)
    ensures Scans(s, [open] + (text + [close]), [open] + (out + [close]))
  {
    ScansOne(s, open);
    ScansOne(inner, close);
    ScanSplits(inner, text, [close]);
    ScanSplits(s, [open], text + [close]);
  }

  // ----- strings -----

  lemma EscapeScans(s: Scan, c: char)
    requires s.quoted && !s.escaped
    ensures Scans(s, Escape(c), Escape(c))
  {
    var e := Escape(c);
    if |e| == 1 {
      ScansOne(s, c);
    } else {
      EscapeShape(c);
      var t := s.(escaped := true);
      ScansOne(s, '\\');
      ScansOne(t, e[1]);
      ScanSplits(s, ['\\'], [e[1]]);
      assert ['\\'] + [e[1]] == e[..2];
      PlainScans(s, e[2..]);
      ScansBoth(s, e[..2], e[..2], e[2..], e[2..]);
      assert e[..2] + e[2..] == e;
    }
  }

  lemma EscapeShape(c: char)
    requires |Escape(c)| > 1
    ensures var e := Escape(c); e[0] == '\\' && '\\' !in e[2..] && '"' !in e[2..]
  {
  }

  lemma {:induction false} PlainScans(s: Scan, text: string)
    requires s.quoted && !s.escaped && '\\' !in text && '"' !in text
    ensures Scans(s, text, text)
  {
    if text != [] {
      PlainScans(s, text[1..]);
      ScansOne(s, text[0]);
      ScansBoth(s, [text[0]], [text[0]], text[1..], text[1..]);
      assert [text[0]] + text[1..] == text;
    }
  }

  lemma {:induction false} CharsScan(s: Scan, cs: string)
    requires s.quoted && !s.escaped
    ensures Scans(s, EscapeAll(cs), EscapeAll(cs))
  {
    if cs != [] {
      EscapeScans(s, cs[0]);
      CharsScan(s, cs[1..]);
      ScansBoth(s, Escape(cs[0]), Escape(cs[0]), EscapeAll(cs[1..]), EscapeAll(cs[1..]));
    }
  }

  lemma QuotedScans(s: Scan, cs: string)
    requires !s.quoted && !s.escaped
    ensures Scans(s, Quoted(cs), Quoted(cs))
  {
    var inner := s.(quoted := true);
    CharsScan(inner, cs);
    ScansInside(s, inner, '"', EscapeAll(cs), EscapeAll(cs), '"');
  }

  /** Outside strings, text without quotes, brackets and commas leaves the scanner alone. */
  lemma {:induction false} BareScans(s: Scan, text: string)
    requires !s.quoted
    requires forall k :: 0 <= k < |text| ==> text[k] !in "\"[]{},"
    ensures Scans(s, text, text)
  {
    if text != [] {
      BareScans(s, text[1..]);
      ScansOne(s, text[0]);
      ScansBoth(s, [text[0]], [text[0]], text[1..], text[1..]);
      assert [text[0]] + text[1..] == text;
    }
  }

  // ----- values -----

  /** What follows a comma between the items of an array whose items sit at this depth. */
  function GapAt(depth: int): string {
    if depth == 1 then ['\n'] else []
  }

  /** A value inside an array, however deep and whatever it holds, is copied unchanged and leaves the scanner where it
      was. */
  lemma {:induction false} ValueScans(s: Scan, v: Json)
    requires WellFormed(v) && !s.quoted && !s.escaped && s.depth >= 1
    ensures Scans(s, Stringify(v), Stringify(v))
    decreases v, 1
  {
    match v {
      case Array(items) =>
        var inner := s.(depth := s.depth + 1);
        ItemsScan(inner, items);
        ScansInside(s, inner, '[', Spaced(items, []), Spaced(items, []), ']');
      case Object(members) =>
        var inner := s.(depth := s.depth + 1);
        MembersScan(inner, members);
        ScansInside(s, inner, '{', Members(members), Members(members), '}');
      case Text(chars) => QuotedScans(s, chars);
      case _ => BareScans(s, Stringify(v));
    }
  }

  /** The items of an array gain a newline after each comma exactly when they sit at depth one. */
  lemma {:induction false} ItemsScan(s: Scan, items: seq<Json>)
    requires (forall i :: i in items ==> WellFormed(i)) && !s.quoted && !s.escaped && s.depth >= 1
    ensures Scans(s, Spaced(items, []), Spaced(items, GapAt(s.depth)))
    decreases items, 0
  {
    if items != [] {
      ValueScans(s, items[0]);
      if |items| > 1 {
        var gap, later := GapAt(s.depth), items[1..];
        ItemsScan(s, later);
        ScansOne(s, ',');
        ScansBoth(s, [','], [','] + gap, Spaced(later, []), Spaced(later, gap));
        Associates([','], gap, Spaced(later, gap));
        assert [] + Spaced(later, []) == Spaced(later, []);
        ScansBoth(s, Stringify(items[0]), Stringify(items[0]), [','] + Spaced(later, []), [','] + (gap + Spaced(later, gap)));
      }
    }
  }

  lemma {:induction false} MembersScan(s: Scan, members: seq<Member>)
    requires (forall m :: m in members ==> WellFormed(m.value)) && !s.quoted && !s.escaped && s.depth >= 2
    ensures Scans(s, Members(members), Members(members))
    decreases members, 0
  {
    if members != [] {
      var first := members[0];
      assert first in members;
      MemberScans(s, first);
      if |members| > 1 {
        MembersScan(s, members[1..]);
        ScansOne(s, ',');
        var later := Members(members[1..]);
        ScansBoth(s, [','], [','], later, later);
        ScansBoth(s, MemberText(first), MemberText(first), [','] + later, [','] + later);
      }
    }
  }

  lemma {:induction false} MemberScans(s: Scan, m: Member)
    requires WellFormed(m.value) && !s.quoted && !s.escaped && s.depth >= 2
    ensures Scans(s, MemberText(m), MemberText(m))
    decreases m, 2
  {
    QuotedScans(s, m.name);
    ValueScans(s, m.value);
    ScansOne(s, ':');
    var value := Stringify(m.value);
    ScansBoth(s, [':'], [':'], value, value);
    ScansBoth(s, Quoted(m.name), Quoted(m.name), [':'] + value, [':'] + value);
  }

  // ----- the renderer -----

  const START := Scan(0, false, false)

  /** The text a generated result is shown as. */
  function Layout(v: Json): string {
    match v
    case Array(items) => ['['] + (Spaced(items, ['\n']) + [']'])
    case _ => Stringify(v)
  }

  lemma ArrayScans(items: seq<Json>)
    requires WellFormed(Array(items))
    ensures Emission(START, Stringify(Array(items))) == Layout(Array(items))
  {
    var inner := Scan(1, false, false);
    ItemsScan(inner, items);
    ScansInside(START, inner, '[', Spaced(items, []), Spaced(items, ['\n']), ']');
  }

  /** Where the shortcut applies: only what is not an array, and the empty array. */
  lemma ShortcutExact(v: Json)
    requires WellFormed(v)
    ensures !("[" <= Stringify(v)) || Stringify(v) == "[]" <==> !v.Array? || v.items == []
  {
    FirstChar(v);
    if v.Array? && v.items != [] {
      FirstChar(v.items[0]);
      assert Stringify(v)[1] == Spaced(v.items, [])[0] == Stringify(v.items[0])[0];
    } else if v.Array? {
      assert Stringify(v) == "[]";
    }
  }

  lemma ScanGrows(s: Scan, text: string, i: nat)
    requires i < |text|
    ensures After(s, text[..i + 1]) == Next(After(s, text[..i]), text[i])
    ensures Emission(s, text[..i + 1]) == Emission(s, text[..i]) + Emitted(After(s, text[..i]), text[i])
  {
    ScanSplits(s, text[..i], [text[i]]);
    ScansOne(After(s, text[..i]), text[i]);
    assert text[..i] + [text[i]] == text[..i + 1];
  }

  /** `value` is what JSON.stringify makes of its argument, or nothing where it returns undefined. */
  method RenderJsonResult(value: Option<Json>) returns (r: Outcome)
    requires value.Some? ==> WellFormed(value.value)
    ensures r.TypeError? <==> value.None?
    ensures value.Some? ==> r == Rendered(Layout(value.value))
  {
    if value.None? {
      return TypeError("a generated result must serialize to a JSON value");
    }
    var v := value.value;
    var serialized := Stringify(v);
    ShortcutExact(v);
    if !("[" <= serialized) || serialized == "[]" {
      assert v.Array? ==> Layout(v) == Stringify(v);
      return Rendered(serialized);
    }
    var scan := START;
    var rendered := "";
    for i := 0 to |serialized|
      invariant scan == After(START, serialized[..i])
      invariant rendered == Emission(START, serialized[..i])
    {
      var c := serialized[i];
      ScanGrows(START, serialized, i);
      rendered := rendered + [c];
      if scan.quoted {
        if scan.escaped {
          scan := scan.(escaped := false);
        } else if c == '\\' {
          scan := scan.(escaped := true);
        } else if c == '"' {
          scan := scan.(quoted := false);
        }
        continue;
      }
      if c == '"' {
        scan := scan.(quoted := true);
      } else if c == '[' || c == '{' {
        scan := scan.(depth := scan.depth + 1);
      } else if c == ']' || c == '}' {
        scan := scan.(depth := scan.depth - 1);
      } else if c == ',' && scan.depth == 1 {
        rendered := rendered + ['\n'];
      }
    }
    assert serialized[..|serialized|] == serialized;
    ArrayScans(v.items);
    r := Rendered(rendered);
  }

  // ----- what the layout promises -----

  /** The rendered text is still the same JSON value. */
  lemma LayoutKeepsValue(v: Json)
    requires WellFormed(v)
    ensures Parse(Layout(v)) == Some(v)
  {
    if v.Array? {
      ParseOfSpaced(v.items, ['\n']);
    } else {
      ParseOfStringify(v);
    }
  }

  /** The physical lines of an array's items: the brackets sit on the first and the last, the commas end the others. */
  function ItemLines(items: seq<Json>, before: string): (lines: seq<Line>)
    requires items != []
    ensures |lines| == |items|
  {
    if |items| == 1 then [before + (Stringify(items[0]) + [']'])]
    else [before + (Stringify(items[0]) + [','])] + ItemLines(items[1..], [])
  }

  /** One physical line for every item, and no other line. */
  lemma OneLinePerItem(items: seq<Json>)
    requires items != [] && WellFormed(Array(items))
    ensures Split(Layout(Array(items))) == ItemLines(items, ['['])
    ensures |Split(Layout(Array(items)))| == |items|
  {
    LinesJoin(items, ['[']);
    LinesPlain(items, ['[']);
    SplitOfJoin(ItemLines(items, ['[']));
  }

  lemma {:induction false} LinesJoin(items: seq<Json>, before: string)
    requires items != []
    ensures Join(ItemLines(items, before)) == before + (Spaced(items, ['\n']) + [']'])
  {
    if |items| > 1 {
      var first, later := Stringify(items[0]), Spaced(items[1..], ['\n']);
      LinesJoin(items[1..], []);
      assert [] + (later + [']']) == later + [']'];
      assert ItemLines(items, before)[1..] == ItemLines(items[1..], []);
      LineThenRest(before, first, later);
    }
  }

  lemma LineThenRest(before: string, first: string, later: string)
    ensures (before + (first + [','])) + "\n" + (later + [']'])
         == before + ((first + ([','] + (['\n'] + later))) + [']'])
  {
  }

  lemma {:induction false} LinesPlain(items: seq<Json>, before: string)
    requires items != [] && '\n' !in before && forall i :: i in items ==> WellFormed(i)
    ensures forall k :: 0 <= k < |items| ==> '\n' !in ItemLines(items, before)[k]
  {
    NoNewline(items[0]);
    if |items| > 1 {
      LinesPlain(items[1..], []);
    }
  }

  lemma {:induction false} NoNewline(v: Json)
    requires WellFormed(v)
    ensures '\n' !in Stringify(v)
    decreases v, 1
  {
    match v {
      case Array(items) => NoNewlineInItems(items);
      case Object(members) => NoNewlineInMembers(members);
      case Text(chars) => NoNewlineInChars(chars);
      case _ =>
    }
  }

  lemma {:induction false} NoNewlineInChars(cs: string)
    ensures '\n' !in EscapeAll(cs)
  {
    if cs != [] {
      NoNewlineInChars(cs[1..]);
      assert '\n' !in Escape(cs[0]);
    }
  }

  lemma {:induction false} NoNewlineInItems(items: seq<Json>)
    requires forall i :: i in items ==> WellFormed(i)
    ensures '\n' !in Spaced(items, [])
    decreases items, 0
  {
    if items != [] {
      NoNewline(items[0]);
      if |items| > 1 {
        NoNewlineInItems(items[1..]);
      }
    }
  }

  lemma {:induction false} NoNewlineInMembers(members: seq<Member>)
    requires forall m :: m in members ==> WellFormed(m.value)
    ensures '\n' !in Members(members)
    decreases members, 0
  {
    if members != [] {
      assert members[0] in members;
      NoNewline(members[0].value);
      NoNewlineInChars(members[0].name);
      if |members| > 1 {
        NoNewlineInMembers(members[1..]);
      }
    }
  }
}
