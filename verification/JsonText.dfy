/** JSON values, their compact text as JSON.stringify writes it, and a reader that allows whitespace between
    tokens (sections 2 to 7 of RFC 8259). */
module JsonText {

  import opened Optional

  datatype Json =
    | Null
    | Bool(b: bool)
    | Number(text: string)
    | Text(chars: string)
    | Array(items: seq<Json>)
    | Object(members: seq<Member>)

  datatype Member = Member(name: string, value: Json)

  // ----- writing -----

  predicate NumberChar(c: char) {
    '0' <= c <= '9' || c == '-' || c == '+' || c == '.' || c == 'e' || c == 'E'
  }

  predicate WellFormed(v: Json) {
    match v
    case Number(text) => text != [] && forall k :: 0 <= k < |text| ==> NumberChar(text[k])
    case Array(items) => forall i :: i in items ==> WellFormed(i)
    case Object(members) => forall m :: m in members ==> WellFormed(m.value)
    case _ => true
  }

  function Hex(d: nat): char
    requires d < 16
  {
    if d < 10 then ('0' as int + d) as char else ('a' as int + d - 10) as char
  }

  /** One character of a string literal: quotes, backslashes and control characters are escaped. */
  function Escape(c: char): string {
    if c == '"' then ['\\', '"']
    else if c == '\\' then ['\\', '\\']
    else if c == '\n' then ['\\', 'n']
    else if c == '\r' then ['\\', 'r']
    else if c == '\t' then ['\\', 't']
    else if c as int == 8 then ['\\', 'b']
    else if c as int == 12 then ['\\', 'f']
    else if c as int < 32 then ['\\', 'u', '0', '0', Hex(c as int / 16), Hex(c as int % 16)]
    else [c]
  }

  function EscapeAll(s: string): string {
    if s == [] then [] else Escape(s[0]) + EscapeAll(s[1..])
  }

  function Quoted(s: string): string {
    ['"'] + (EscapeAll(s) + ['"'])
  }

  function Stringify(v: Json): string
    decreases v, 1
  {
    match v
    case Null => "null"
    case Bool(b) => if b then "true" else "false"
    case Number(text) => text
    case Text(chars) => Quoted(chars)
    case Array(items) => ['['] + (Spaced(items, []) + [']'])
    case Object(members) => ['{'] + (Members(members) + ['}'])
  }

  /** The items with commas between them, each comma followed by `gap`. */
  function Spaced(items: seq<Json>, gap: string): string
    decreases items, 0
  {
    if items == [] then []
    else if |items| == 1 then Stringify(items[0])
    else Stringify(items[0]) + ([','] + (gap + Spaced(items[1..], gap)))
  }

  function Members(members: seq<Member>): string
    decreases members, 0
  {
    if members == [] then []
    else if |members| == 1 then MemberText(members[0])
    else MemberText(members[0]) + ([','] + Members(members[1..]))
  }

  function MemberText(m: Member): string
    decreases m, 2
  {
    Quoted(m.name) + ([':'] + Stringify(m.value))
  }

  // ----- reading -----

  predicate Whitespace(c: char) {
    c == ' ' || c == '\t' || c == '\n' || c == '\r'
  }

  function SkipSpace(s: string): (r: string)
    ensures |r| <= |s|
  {
    if s != [] && Whitespace(s[0]) then SkipSpace(s[1..]) else s
  }

  function HexValue(c: char): Option<nat> {
    if '0' <= c <= '9' then Some(c as int - '0' as int)
    else if 'a' <= c <= 'f' then Some(c as int - 'a' as int + 10)
    else if 'A' <= c <= 'F' then Some(c as int - 'A' as int + 10)
    else None
  }

  /** The character an escape sequence stands for, and how long the sequence is after its backslash. Escapes above
      the control characters are left to the caller of the program: they are never written. */
  function Unescape(s: string): (r: Option<(char, nat)>)
    ensures r.Some? ==> 1 <= r.value.1 <= |s|
  {
    if s == [] then None
    else if s[0] == '"' || s[0] == '\\' || s[0] == '/' then Some((s[0], 1))
    else if s[0] == 'n' then Some(('\n', 1))
    else if s[0] == 'r' then Some(('\r', 1))
    else if s[0] == 't' then Some(('\t', 1))
    else if s[0] == 'b' then Some((8 as char, 1))
    else if s[0] == 'f' then Some((12 as char, 1))
    else if s[0] == 'u' && |s| >= 5 && s[1] == '0' && s[2] == '0' then
      var high :- HexValue(s[3]);
      var low :- HexValue(s[4]);
      Some(((high * 16 + low) as char, 5))
    else None
  }

  /** The rest of a string literal after its opening quote. */
  function ReadChars(s: string): (r: Option<(string, string)>)
    ensures r.Some? ==> |r.value.1| < |s|
    decreases |s|
  {
    if s == [] || s[0] as int < 32 then None
    else if s[0] == '"' then Some(([], s[1..]))
    else if s[0] == '\\' then
      var (c, n) :- Unescape(s[1..]);
      var (cs, rest) :- ReadChars(s[1 + n..]);
      Some(([c] + cs, rest))
    else
      var (cs, rest) :- ReadChars(s[1..]);
      Some(([s[0]] + cs, rest))
  }

  function NumberSpan(s: string): (n: nat)
    ensures n <= |s|
    ensures forall k :: 0 <= k < n ==> NumberChar(s[k])
    ensures n < |s| ==> !NumberChar(s[n])
  {
    if s == [] || !NumberChar(s[0]) then 0 else 1 + NumberSpan(s[1..])
  }

  function ReadValue(text: string): (r: Option<(Json, string)>)
    ensures r.Some? ==> |r.value.1| < |text|
    decreases |text|, 3
  {
    var s := SkipSpace(text);
    if s == [] then None
    else if s[0] == '"' then
      var (chars, rest) :- ReadChars(s[1..]);
      Some((Text(chars), rest))
    else if s[0] == '[' then
      var t := SkipSpace(s[1..]);
      if t != [] && t[0] == ']' then Some((Array([]), t[1..]))
      else
        var (items, rest) :- ReadItems(t);
        Some((Array(items), rest))
    else if s[0] == '{' then
      var t := SkipSpace(s[1..]);
      if t != [] && t[0] == '}' then Some((Object([]), t[1..]))
      else
        var (members, rest) :- ReadMembers(t);
        Some((Object(members), rest))
    else if "null" <= s then Some((Null, s[4..]))
    else if "true" <= s then Some((Bool(true), s[4..]))
    else if "false" <= s then Some((Bool(false), s[5..]))
    else
      var n := NumberSpan(s);
      if n == 0 then None else Some((Number(s[..n]), s[n..]))
  }

  /** Items up to the closing bracket. */
  function ReadItems(s: string): (r: Option<(seq<Json>, string)>)
    ensures r.Some? ==> |r.value.1| < |s|
    decreases |s|, 4
  {
    var (item, rest) :- ReadValue(s);
    var t := SkipSpace(rest);
    if t == [] then None
    else if t[0] == ']' then Some(([item], t[1..]))
    else if t[0] == ',' then
      var (items, end) :- ReadItems(t[1..]);
      Some(([item] + items, end))
    else None
  }

  function ReadMember(text: string): (r: Option<(Member, string)>)
    ensures r.Some? ==> |r.value.1| < |text|
    decreases |text|, 4
  {
    var s := SkipSpace(text);
    if s == [] || s[0] != '"' then None
    else
      var (name, rest) :- ReadChars(s[1..]);
      var t := SkipSpace(rest);
      if t == [] || t[0] != ':' then None
      else
        var (value, end) :- ReadValue(t[1..]);
        Some((Member(name, value), end))
  }

  function ReadMembers(s: string): (r: Option<(seq<Member>, string)>)
    ensures r.Some? ==> |r.value.1| < |s|
    decreases |s|, 5
  {
    var (m, rest) :- ReadMember(s);
    var t := SkipSpace(rest);
    if t == [] then None
    else if t[0] == '}' then Some(([m], t[1..]))
    else if t[0] == ',' then
      var (members, end) :- ReadMembers(t[1..]);
      Some(([m] + members, end))
    else None
  }

  /** The value a whole text stands for. */
  function Parse(text: string): Option<Json> {
    var (v, rest) :- ReadValue(text);
    if SkipSpace(rest) == [] then Some(v) else None
  }

  // ----- the reader inverts the writer -----

  /** What may follow a value without running into it. */
  predicate Ends(rest: string) {
    rest == [] || !NumberChar(rest[0])
  }

  lemma EscapeReads(c: char, s: string)
    ensures Escape(c)[0] == '\\' ==> Unescape(Escape(c)[1..] + s) == Some((c, |Escape(c)| - 1))
    ensures Escape(c)[0] != '\\' ==> Escape(c) == [c] && c as int >= 32 && c != '"'
  {
    if c as int < 32 && |Escape(c)| == 6 {
      var e := Escape(c)[1..] + s;
      assert e[0] == 'u' && e[1] == '0' && e[2] == '0' && e[3] == Hex(c as int / 16) && e[4] == Hex(c as int % 16);
      assert HexValue(e[3]) == Some(c as int / 16) && HexValue(e[4]) == Some(c as int % 16);
    }
  }

  lemma ReadEscaped(s: string, e: string, tail: string, c: char, cs: string, rest: string)
    requires s == e + tail && e == Escape(c) && ReadChars(tail) == Some((cs, rest))
    ensures ReadChars(s) == Some(([c] + cs, rest))
  {
    EscapeReads(c, tail);
    assert s[0] == e[0] && s[|e|..] == tail && s[1..] == e[1..] + tail;
  }

  lemma Associates(a: string, b: string, c: string)
    ensures (a + b) + c == a + (b + c)
  {
  }

  lemma {:induction false} CharsRead(cs: string, rest: string)
    ensures ReadChars(EscapeAll(cs) + (['"'] + rest)) == Some((cs, rest))
  {
    var end := ['"'] + rest;
    if cs == [] {
      assert EscapeAll(cs) + end == end && end[1..] == rest;
    } else {
      CharsRead(cs[1..], rest);
      Associates(Escape(cs[0]), EscapeAll(cs[1..]), end);
      ReadEscaped(EscapeAll(cs) + end, Escape(cs[0]), EscapeAll(cs[1..]) + end, cs[0], cs[1..], rest);
      assert [cs[0]] + cs[1..] == cs;
    }
  }

  /** No compact text begins with whitespace, and each kind of value shows its own first character. */
  lemma FirstChar(v: Json)
    requires WellFormed(v)
    ensures var s := Stringify(v);
      && s != [] && !Whitespace(s[0])
      && (v.Text? <==> s[0] == '"') && (v.Array? <==> s[0] == '[') && (v.Object? <==> s[0] == '{')
      && s[0] != ']' && s[0] != '}' && s[0] != ','
  {
  }

  ghost predicate AllSpace(s: string) {
    forall k :: 0 <= k < |s| ==> Whitespace(s[k])
  }

  lemma {:induction false} SkipsGap(gap: string, s: string)
    requires AllSpace(gap) && s != [] && !Whitespace(s[0])
    ensures SkipSpace(gap + s) == s
  {
    if gap == [] {
      assert gap + s == s;
    } else {
      SkipsGap(gap[1..], s);
      assert (gap + s)[1..] == gap[1..] + s;
    }
  }

  lemma ScalarReads(v: Json, rest: string)
    requires WellFormed(v) && !v.Array? && !v.Object? && Ends(rest)
    ensures ReadValue(Stringify(v) + rest) == Some((v, rest))
  {
    match v {
      case Number(text) => NumberReads(text, rest);
      case Text(chars) => TextReads(chars, rest);
      case _ => NameReads(v, rest);
    }
  }

  lemma NameReads(v: Json, rest: string)
    requires v.Null? || v.Bool?
    ensures ReadValue(Stringify(v) + rest) == Some((v, rest))
  {
    var name := Stringify(v);
    var s := name + rest;
    assert SkipSpace(s) == s && s[|name|..] == rest && s[0] == name[0] && name <= s;
  }

  lemma NumberReads(text: string, rest: string)
    requires WellFormed(Number(text)) && Ends(rest)
    ensures ReadValue(text + rest) == Some((Number(text), rest))
  {
    var s := text + rest;
    NumberSpanExact(text, rest);
    assert s[..|text|] == text && s[|text|..] == rest && s[0] == text[0];
    assert SkipSpace(s) == s && s[0] !in "\"[{nt" && s[0] != 'f';
  }

  lemma TextReads(chars: string, rest: string)
    ensures ReadValue(Quoted(chars) + rest) == Some((Text(chars), rest))
  {
    var s := Quoted(chars) + rest;
    CharsRead(chars, rest);
    assert SkipSpace(s) == s && s[1..] == EscapeAll(chars) + (['"'] + rest);
  }

  lemma {:induction false} NumberSpanExact(text: string, rest: string)
    requires forall k :: 0 <= k < |text| ==> NumberChar(text[k])
    requires Ends(rest)
    ensures NumberSpan(text + rest) == |text|
  {
    if text == [] {
      assert text + rest == rest;
    } else {
      NumberSpanExact(text[1..], rest);
      assert (text + rest)[1..] == text[1..] + rest;
    }
  }

  /** A text with whitespace before it reads like the text. */
  lemma ReadPastGap(gap: string, s: string)
    requires AllSpace(gap) && s != [] && !Whitespace(s[0])
    ensures ReadValue(gap + s) == ReadValue(s)
  {
    SkipsGap(gap, s);
    SkipsGap([], s);
    assert [] + s == s;
    assert SkipSpace(gap + s) == SkipSpace(s);
  }

  // ----- whole values -----

  /** Reading a value's text gives the value and stops where the text ends. */
  lemma {:induction false} ValueReads(v: Json, rest: string)
    requires WellFormed(v) && Ends(rest)
    ensures ReadValue(Stringify(v) + rest) == Some((v, rest))
    decreases v, 2
  {
    match v {
      case Array(items) =>
        var body, end := Spaced(items, []), [']'] + rest;
        ItemsRead(items, [], rest);
        WrapAssociates('[', body, ']', rest);
        if items == [] {
          assert body + end == end;
        } else {
          SpacedStarts(items, [], end);
        }
        ArrayReads(items, Stringify(v) + rest, body + end, rest);
      case Object(members) =>
        var body, end := Members(members), ['}'] + rest;
        MembersRead(members, rest);
        WrapAssociates('{', body, '}', rest);
        if members == [] {
          assert body + end == end;
        } else {
          MembersStart(members, end);
        }
        ObjectReads(members, Stringify(v) + rest, body + end, rest);
      case _ => ScalarReads(v, rest);
    }
  }

  lemma WrapAssociates(open: char, body: string, close: char, rest: string)
    ensures ([open] + (body + [close])) + rest == [open] + (body + ([close] + rest))
  {
  }

  /** Items read back, whatever whitespace follows the commas. */
  lemma {:induction false} ItemsRead(items: seq<Json>, gap: string, rest: string)
    requires AllSpace(gap) && forall i :: i in items ==> WellFormed(i)
    ensures items != [] ==> ReadItems(Spaced(items, gap) + ([']'] + rest)) == Some((items, rest))
    decreases items, 1
  {
    if items != [] {
      var end, first := [']'] + rest, items[0];
      if |items| == 1 {
        ValueReads(first, end);
        LastItem(first, Spaced(items, gap) + end, rest);
        assert items == [first];
      } else {
        var later := Spaced(items[1..], gap) + end;
        ItemsRead(items[1..], gap, rest);
        ValueReads(first, [','] + (gap + later));
        SpacedUnfolds(items, gap, end);
        SpacedStarts(items[1..], gap, end);
        NextItem(first, Spaced(items, gap) + end, gap, later, items[1..], rest);
        assert items == [first] + items[1..];
      }
    }
  }

  lemma SpacedUnfolds(items: seq<Json>, gap: string, end: string)
    requires |items| > 1
    ensures Spaced(items, gap) + end == Stringify(items[0]) + ([','] + (gap + (Spaced(items[1..], gap) + end)))
  {
    var later := Spaced(items[1..], gap);
    Associates(gap, later, end);
    Associates([','], gap + later, end);
    Associates(Stringify(items[0]), [','] + (gap + later), end);
  }

  lemma SpacedStarts(items: seq<Json>, gap: string, end: string)
    requires items != [] && forall i :: i in items ==> WellFormed(i)
    ensures var s := Spaced(items, gap) + end; s != [] && !Whitespace(s[0]) && s[0] != ']'
  {
    FirstChar(items[0]);
  }

  lemma LastItem(v: Json, s: string, rest: string)
    requires ReadValue(s) == Some((v, [']'] + rest))
    ensures ReadItems(s) == Some(([v], rest))
  {
    var t := [']'] + rest;
    assert SkipSpace(t) == t && t[1..] == rest;
  }

  /** Whitespace before an item list is passed over with its first item. */
  lemma ItemsPastGap(gap: string, s: string)
    requires AllSpace(gap) && s != [] && !Whitespace(s[0])
    ensures ReadItems(gap + s) == ReadItems(s)
  {
    ReadPastGap(gap, s);
  }

  lemma NextItem(v: Json, s: string, gap: string, later: string, items: seq<Json>, rest: string)
    requires ReadValue(s) == Some((v, [','] + (gap + later)))
    requires AllSpace(gap) && later != [] && !Whitespace(later[0])
    requires ReadItems(later) == Some((items, rest))
    ensures ReadItems(s) == Some(([v] + items, rest))
  {
    var t := [','] + (gap + later);
    assert SkipSpace(t) == t && t[1..] == gap + later;
    ItemsPastGap(gap, later);
  }

  lemma ArrayReads(items: seq<Json>, s: string, inner: string, rest: string)
    requires s == ['['] + inner
    requires items == [] ==> inner == [']'] + rest
    requires items != [] ==> inner != [] && !Whitespace(inner[0]) && inner[0] != ']' && ReadItems(inner) == Some((items, rest))
    ensures ReadValue(s) == Some((Array(items), rest))
  {
    assert SkipSpace(s) == s && s[1..] == inner && SkipSpace(inner) == inner;
    if items == [] {
      assert inner[1..] == rest;
    }
  }

  lemma {:induction false} MembersRead(members: seq<Member>, rest: string)
    requires forall m :: m in members ==> WellFormed(m.value)
    ensures members != [] ==> ReadMembers(Members(members) + (['}'] + rest)) == Some((members, rest))
    decreases members, 1
  {
    if members != [] {
      var end, first := ['}'] + rest, members[0];
      assert first in members;
      if |members| == 1 {
        MemberReads(first, end);
        LastMember(first, Members(members) + end, rest);
        assert members == [first];
      } else {
        var later := Members(members[1..]) + end;
        MembersRead(members[1..], rest);
        MemberReads(first, [','] + later);
        MembersUnfold(members, end);
        NextMember(first, Members(members) + end, later, members[1..], rest);
        assert members == [first] + members[1..];
      }
    }
  }

  lemma MembersUnfold(members: seq<Member>, end: string)
    requires |members| > 1
    ensures Members(members) + end == MemberText(members[0]) + ([','] + (Members(members[1..]) + end))
  {
    var later := Members(members[1..]);
    Associates([','], later, end);
    Associates(MemberText(members[0]), [','] + later, end);
  }

  lemma MembersStart(members: seq<Member>, end: string)
    requires members != []
    ensures var s := Members(members) + end; s != [] && s[0] == '"'
  {
    assert MemberText(members[0])[0] == '"';
  }

  lemma {:induction false} MemberReads(m: Member, rest: string)
    requires WellFormed(m.value) && Ends(rest)
    ensures ReadMember(MemberText(m) + rest) == Some((m, rest))
    decreases m, 3
  {
    var value := Stringify(m.value) + rest;
    var s, t := MemberText(m) + rest, [':'] + value;
    ValueReads(m.value, rest);
    CharsRead(m.name, t);
    MemberUnfolds(m, rest);
    assert SkipSpace(s) == s && s[1..] == EscapeAll(m.name) + (['"'] + t);
    assert SkipSpace(t) == t && t[1..] == value;
  }

  lemma MemberUnfolds(m: Member, rest: string)
    ensures MemberText(m) + rest == ['"'] + (EscapeAll(m.name) + (['"'] + ([':'] + (Stringify(m.value) + rest))))
  {
    var value := Stringify(m.value);
    Associates(Quoted(m.name), [':'] + value, rest);
    Associates([':'], value, rest);
    WrapAssociates('"', EscapeAll(m.name), '"', [':'] + (value + rest));
  }

  lemma LastMember(m: Member, s: string, rest: string)
    requires ReadMember(s) == Some((m, ['}'] + rest))
    ensures ReadMembers(s) == Some(([m], rest))
  {
    var t := ['}'] + rest;
    assert SkipSpace(t) == t && t[1..] == rest;
  }

  lemma NextMember(m: Member, s: string, later: string, members: seq<Member>, rest: string)
    requires ReadMember(s) == Some((m, [','] + later)) && ReadMembers(later) == Some((members, rest))
    ensures ReadMembers(s) == Some(([m] + members, rest))
  {
    var t := [','] + later;
    assert SkipSpace(t) == t && t[1..] == later;
  }

  lemma ObjectReads(members: seq<Member>, s: string, inner: string, rest: string)
    requires s == ['{'] + inner
    requires members == [] ==> inner == ['}'] + rest
    requires members != [] ==> inner != [] && inner[0] == '"' && ReadMembers(inner) == Some((members, rest))
    ensures ReadValue(s) == Some((Object(members), rest))
  {
    assert SkipSpace(s) == s && s[1..] == inner && SkipSpace(inner) == inner;
    if members == [] {
      assert inner[1..] == rest;
    }
  }

  /** A whole compact text parses to the value it was written from. */
  lemma ParseOfStringify(v: Json)
    requires WellFormed(v)
    ensures Parse(Stringify(v)) == Some(v)
  {
    ValueReads(v, []);
    assert Stringify(v) + [] == Stringify(v);
  }

  /** Putting whitespace after the commas of the outermost array changes nothing of what the text says. */
  lemma ParseOfSpaced(items: seq<Json>, gap: string)
    requires WellFormed(Array(items)) && AllSpace(gap)
    ensures Parse(['['] + (Spaced(items, gap) + [']'])) == Some(Array(items))
  {
    var text, inner := ['['] + (Spaced(items, gap) + [']']), Spaced(items, gap) + [']'];
    ItemsRead(items, gap, []);
    assert [']'] + [] == [']'];
    if items == [] {
      assert inner == [']'] + [];
    } else {
      SpacedStarts(items, gap, [']']);
    }
    ArrayReads(items, text, inner, []);
  }
}
