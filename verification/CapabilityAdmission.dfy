/** Capability policies: exact conjunctive selectors, and the normalization of many policy layers into one. */
module CapabilityAdmission {

  import opened Optional
  import opened Sequences
  import opened Utf16

  type Field = Option<string>

  datatype Selector = Selector(operation: Field, scheme: Field, runtime: Field, tool: Field, access: Field, traits: Option<seq<string>>)

  datatype Descriptor = Descriptor(operation: string, scheme: Field, runtime: Field, tool: Field, access: string, traits: seq<string>)

  datatype Policy = Policy(allow: Option<seq<Selector>>, only: Option<seq<Selector>>, deny: Option<seq<Selector>>)

  // ----- evaluation -----

  predicate Agrees(wanted: Field, actual: Field) {
    wanted.None? || wanted == actual
  }

  predicate Matches(s: Selector, d: Descriptor) {
    && Agrees(s.operation, Some(d.operation))
    && Agrees(s.scheme, d.scheme)
    && Agrees(s.runtime, d.runtime)
    && Agrees(s.tool, d.tool)
    && Agrees(s.access, Some(d.access))
    && (s.traits.Some? ==> forall t :: t in s.traits.value ==> t in d.traits)
  }

  predicate SomeMatches(selectors: seq<Selector>, d: Descriptor) {
    exists s :: s in selectors && Matches(s, d)
  }

  function Listed(selectors: Option<seq<Selector>>): seq<Selector> {
    if selectors.Some? then selectors.value else []
  }

  /** An absent `only` admits everything, an empty one nothing. */
  predicate OnlyAdmits(only: Option<seq<Selector>>, d: Descriptor) {
    only.None? || SomeMatches(only.value, d)
  }

  predicate Allows(p: Policy, d: Descriptor) {
    !SomeMatches(Listed(p.deny), d) && OnlyAdmits(p.only, d)
  }

  predicate AllowsAcross(ps: seq<Policy>, d: Descriptor) {
    forall p :: p in ps ==> Allows(p, d)
  }

  predicate Preapproves(p: Policy, d: Descriptor) {
    Allows(p, d) && SomeMatches(Listed(p.allow), d)
  }

  predicate PreapprovesAcross(ps: seq<Policy>, d: Descriptor) {
    AllowsAcross(ps, d) && exists p :: p in ps && SomeMatches(Listed(p.allow), d)
  }

  const ANYTHING := Selector(None, None, None, None, None, None)

  predicate Wants(wanted: Field, actual: Field) {
    wanted.Some? ==> actual.Some? && actual.value == wanted.value
  }

  /** A selector matches what agrees with every field it gives and has every trait it names; one that gives none matches
      everything. */
  lemma MatchesExactly(s: Selector, d: Descriptor)
    ensures Matches(ANYTHING, d)
    ensures Matches(s, d) <==>
      (&& Wants(s.operation, Some(d.operation)) && Wants(s.scheme, d.scheme) && Wants(s.runtime, d.runtime)
       && Wants(s.tool, d.tool) && Wants(s.access, Some(d.access))
       && (s.traits.Some? ==> forall k :: 0 <= k < |s.traits.value| ==> s.traits.value[k] in d.traits))
  {
    if s.traits.Some? {
      assert forall k :: 0 <= k < |s.traits.value| ==> s.traits.value[k] in s.traits.value;
    }
  }

  /** A policy without lists allows everything and preapproves nothing; one more `deny` refuses what it matches and nothing else,
      one more `only` admits what it matches unless that is denied, and one more `allow` preapproves what it matches of what is
      allowed. */
  lemma ListsDecide(p: Policy, s: Selector, d: Descriptor)
    ensures Allows(Policy(None, None, None), d) && !Preapproves(Policy(None, None, None), d)
    ensures !Allows(p.(only := Some([])), d)
    ensures Allows(p.(deny := Some(Listed(p.deny) + [s])), d) <==> Allows(p, d) && !Matches(s, d)
    ensures p.only.Some? ==>
      (Allows(p.(only := Some(p.only.value + [s])), d) <==> Allows(p, d) || (Matches(s, d) && !SomeMatches(Listed(p.deny), d)))
    ensures Preapproves(p.(allow := Some(Listed(p.allow) + [s])), d) <==> Preapproves(p, d) || (Allows(p, d) && Matches(s, d))
  {
    OneMoreMatches(Listed(p.deny), s, d);
    OneMoreMatches(Listed(p.allow), s, d);
    if p.only.Some? {
      OneMoreMatches(p.only.value, s, d);
    }
  }

  lemma OneMoreMatches(selectors: seq<Selector>, s: Selector, d: Descriptor)
    ensures SomeMatches(selectors + [s], d) <==> SomeMatches(selectors, d) || Matches(s, d)
  {
    assert forall x :: x in selectors + [s] <==> x in selectors || x == s;
  }

  // ----- sorting -----

  /** Characters in the order of their UTF-16 units: surrogate pairs come before U+E000 to U+FFFF. */
  function Rank(c: char): int {
    if 0xE000 <= c as int < 0x10000 then c as int + 0x11_0000 else c as int
  }

  /** Two characters are ranked as their units are, compared one by one. */
  lemma RankIsUnitOrder(a: char, b: char)
    ensures Rank(a) < Rank(b) <==>
      (Units(a)[0] < Units(b)[0] || (Units(a)[0] == Units(b)[0] && |Units(a)| == 2 && |Units(b)| == 2 && Units(a)[1] < Units(b)[1]))
    ensures Units(a) == Units(b) <==> a == b
  {
  }

  predicate LexLeq(a: string, b: string) {
    a == [] || (b != [] && (Rank(a[0]) < Rank(b[0]) || (a[0] == b[0] && LexLeq(a[1..], b[1..]))))
  }

  lemma {:induction false} LexTotal(a: string, b: string)
    ensures LexLeq(a, b) || LexLeq(b, a)
    ensures LexLeq(a, b) && LexLeq(b, a) ==> a == b
  {
    if a != [] && b != [] && a[0] == b[0] {
      LexTotal(a[1..], b[1..]);
      assert a == [a[0]] + a[1..] && b == [b[0]] + b[1..];
    }
  }

  lemma {:induction false} LexTransitive(a: string, b: string, c: string)
    requires LexLeq(a, b) && LexLeq(b, c)
    ensures LexLeq(a, c)
  {
    if a != [] && a[0] == b[0] && b[0] == c[0] {
      LexTransitive(a[1..], b[1..], c[1..]);
    }
  }

  ghost predicate Sorted(s: seq<string>) {
    forall i, j :: 0 <= i < j < |s| ==> LexLeq(s[i], s[j])
  }

  function Insert(x: string, s: seq<string>): (r: seq<string>)
    ensures multiset(r) == multiset(s) + multiset{x}
  {
    if s == [] then [x]
    else if LexLeq(x, s[0]) then [x] + s
    else
      assert s == [s[0]] + s[1..];
      [s[0]] + Insert(x, s[1..])
  }

  function Sort(s: seq<string>): (r: seq<string>)
    ensures multiset(r) == multiset(s)
  {
    if s == [] then []
    else
      assert s == [s[0]] + s[1..];
      Insert(s[0], Sort(s[1..]))
  }

  lemma PrependSorted(x: string, s: seq<string>)
    requires Sorted(s) && forall y :: y in s ==> LexLeq(x, y)
    ensures Sorted([x] + s)
  {
  }

  lemma {:induction false} InsertIsSorted(x: string, s: seq<string>)
    requires Sorted(s)
    ensures Sorted(Insert(x, s))
  {
    if s != [] {
      LexTotal(x, s[0]);
      if LexLeq(x, s[0]) {
        forall y | y in s
          ensures LexLeq(x, y)
        {
          LexTotal(s[0], s[0]);
          LexTransitive(x, s[0], y);
        }
        PrependSorted(x, s);
      } else {
        InsertIsSorted(x, s[1..]);
        forall y | y in Insert(x, s[1..])
          ensures LexLeq(s[0], y)
        {
          assert y in multiset(Insert(x, s[1..]));
        }
        PrependSorted(s[0], Insert(x, s[1..]));
      }
    }
  }

  lemma {:induction false} SortIsSorted(s: seq<string>)
    ensures Sorted(Sort(s))
  {
    if s != [] {
      SortIsSorted(s[1..]);
      InsertIsSorted(s[0], Sort(s[1..]));
    }
  }

  /** The first of a sorted list is below every member. */
  lemma FirstIsLeast(s: seq<string>, x: string)
    requires Sorted(s) && x in multiset(s)
    ensures s != [] && LexLeq(s[0], x)
  {
    var i :| 0 <= i < |s| && s[i] == x;
    LexTotal(x, x);
  }

  /** Two sorted lists with the same members begin alike, and the rest has the same members. */
  lemma SortedBeginAlike(a: seq<string>, b: seq<string>)
    requires Sorted(a) && Sorted(b) && multiset(a) == multiset(b) && a != []
    ensures b != [] && a[0] == b[0] && multiset(a[1..]) == multiset(b[1..])
  {
    assert a[0] in multiset(a);
    FirstIsLeast(b, a[0]);
    assert b[0] in multiset(b);
    FirstIsLeast(a, b[0]);
    LexTotal(a[0], b[0]);
    RestCounts(a);
    RestCounts(b);
  }

  lemma RestCounts(s: seq<string>)
    requires s != []
    ensures multiset(s[1..]) == multiset(s) - multiset{s[0]}
  {
    assert s == [s[0]] + s[1..];
  }

  lemma {:induction false} SortedIsUnique(a: seq<string>, b: seq<string>)
    requires Sorted(a) && Sorted(b) && multiset(a) == multiset(b)
    ensures a == b
    decreases |a|
  {
    if a == [] {
      assert |multiset(b)| == |b| && |multiset(a)| == 0;
    } else {
      SortedBeginAlike(a, b);
      assert Sorted(a[1..]) && Sorted(b[1..]);
      SortedIsUnique(a[1..], b[1..]);
      assert a == [a[0]] + a[1..] && b == [b[0]] + b[1..];
    }
  }

  // ----- merging two selectors -----

  predicate Compatible(l: Field, r: Field) {
    l.None? || r.None? || l == r
  }

  function Either(l: Field, r: Field): Field {
    if l.Some? then l else r
  }

  function TraitsOf(s: Selector): seq<string> {
    if s.traits.Some? then s.traits.value else []
  }

  function Merge(l: Selector, r: Selector): Option<Selector> {
    if Compatible(l.operation, r.operation) && Compatible(l.scheme, r.scheme) && Compatible(l.runtime, r.runtime)
       && Compatible(l.tool, r.tool) && Compatible(l.access, r.access)
    then
      var traits := Sort(Distinct(TraitsOf(l) + TraitsOf(r)));
      Some(Selector(Either(l.operation, r.operation), Either(l.scheme, r.scheme), Either(l.runtime, r.runtime),
                    Either(l.tool, r.tool), Either(l.access, r.access), if traits == [] then None else Some(traits)))
    else None
  }

  lemma SortKeepsMembers(s: seq<string>, x: string)
    ensures x in Sort(s) <==> x in s
  {
    assert x in multiset(Sort(s)) <==> x in multiset(s);
  }

  /** A merged selector matches exactly what both parts match; parts that cannot be merged match nothing together. */
  lemma MergeIsConjunction(l: Selector, r: Selector, d: Descriptor)
    ensures (Matches(l, d) && Matches(r, d)) <==> (Merge(l, r).Some? && Matches(Merge(l, r).value, d))
  {
    if Merge(l, r).Some? {
      MergedTraits(l, r, d.traits);
    }
  }

  lemma MergedTraits(l: Selector, r: Selector, traits: seq<string>)
    requires Merge(l, r).Some?
    ensures (forall x :: x in TraitsOf(Merge(l, r).value) ==> x in traits)
        <==> (forall x :: x in TraitsOf(l) ==> x in traits) && (forall x :: x in TraitsOf(r) ==> x in traits)
  {
    var both, m := TraitsOf(l) + TraitsOf(r), Merge(l, r).value;
    assert TraitsOf(m) == Sort(Distinct(both));
    forall x
      ensures x in TraitsOf(m) <==> x in TraitsOf(l) || x in TraitsOf(r)
    {
      SortKeepsMembers(Distinct(both), x);
    }
  }

  // ----- duplicates -----

  /** What two selectors must share to be written the same: the fields, and the traits in sorted order. */
  datatype Key = Key(operation: Field, scheme: Field, runtime: Field, tool: Field, access: Field, traits: Option<seq<string>>)

  function KeyOf(s: Selector): Key {
    Key(s.operation, s.scheme, s.runtime, s.tool, s.access, if s.traits.Some? then Some(Sort(s.traits.value)) else None)
  }

  /** Selectors are written the same exactly when they differ in the order of their traits at most. */
  lemma SameKey(a: Selector, b: Selector)
    ensures KeyOf(a) == KeyOf(b) <==>
      && a.operation == b.operation && a.scheme == b.scheme && a.runtime == b.runtime && a.tool == b.tool && a.access == b.access
      && (a.traits.Some? <==> b.traits.Some?)
      && (a.traits.Some? && b.traits.Some? ==> multiset(a.traits.value) == multiset(b.traits.value))
  {
    if a.traits.Some? && b.traits.Some? {
      var x, y := a.traits.value, b.traits.value;
      if multiset(x) == multiset(y) {
        SortIsSorted(x);
        SortIsSorted(y);
        SortedIsUnique(Sort(x), Sort(y));
      }
      assert Sort(x) == Sort(y) ==> multiset(Sort(x)) == multiset(Sort(y));
    }
  }

  lemma SameKeySameMeaning(a: Selector, b: Selector, d: Descriptor)
    requires KeyOf(a) == KeyOf(b)
    ensures Matches(a, d) <==> Matches(b, d)
  {
    SameKey(a, b);
    if a.traits.Some? {
      assert forall x :: x in a.traits.value <==> x in multiset(a.traits.value);
      assert forall x :: x in b.traits.value <==> x in multiset(b.traits.value);
    }
  }

  /** Selectors sorted by their keys under any collation, however it orders them. */
  function Place(collate: (Key, Key) -> bool, s: Selector, sorted: seq<Selector>): (r: seq<Selector>)
    ensures multiset(r) == multiset(sorted) + multiset{s}
  {
    if sorted == [] then [s]
    else if collate(KeyOf(s), KeyOf(sorted[0])) then [s] + sorted
    else
      assert sorted == [sorted[0]] + sorted[1..];
      [sorted[0]] + Place(collate, s, sorted[1..])
  }

  function SortByKey(collate: (Key, Key) -> bool, selectors: seq<Selector>): (r: seq<Selector>)
    ensures multiset(r) == multiset(selectors)
  {
    if selectors == [] then []
    else
      assert selectors == [selectors[0]] + selectors[1..];
      Place(collate, selectors[0], SortByKey(collate, selectors[1..]))
  }

  ghost predicate DistinctKeys(selectors: seq<Selector>) {
    forall k: Key :: CountKey(selectors, k) <= 1
  }

  ghost function CountKey(selectors: seq<Selector>, k: Key): nat {
    if selectors == [] then 0 else (if KeyOf(selectors[0]) == k then 1 else 0) + CountKey(selectors[1..], k)
  }

  lemma {:induction false} CountKeyPush(selectors: seq<Selector>, s: Selector, k: Key)
    ensures CountKey(selectors + [s], k) == CountKey(selectors, k) + if KeyOf(s) == k then 1 else 0
  {
    if selectors == [] {
      assert selectors + [s] == [s];
    } else {
      CountKeyPush(selectors[1..], s, k);
      assert (selectors + [s])[1..] == selectors[1..] + [s];
    }
  }

  lemma {:induction false} CountKeyPlaced(collate: (Key, Key) -> bool, s: Selector, sorted: seq<Selector>, k: Key)
    ensures CountKey(Place(collate, s, sorted), k) == CountKey(sorted, k) + if KeyOf(s) == k then 1 else 0
  {
    if sorted != [] && !collate(KeyOf(s), KeyOf(sorted[0])) {
      CountKeyPlaced(collate, s, sorted[1..], k);
    }
  }

  lemma {:induction false} CountKeySorted(collate: (Key, Key) -> bool, selectors: seq<Selector>, k: Key)
    ensures CountKey(SortByKey(collate, selectors), k) == CountKey(selectors, k)
  {
    if selectors != [] {
      CountKeySorted(collate, selectors[1..], k);
      CountKeyPlaced(collate, selectors[0], SortByKey(collate, selectors[1..]), k);
    }
  }

  lemma {:induction false} CountedKeyIsThere(selectors: seq<Selector>, k: Key)
    ensures CountKey(selectors, k) > 0 <==> exists s :: s in selectors && KeyOf(s) == k
  {
    if selectors != [] {
      CountedKeyIsThere(selectors[1..], k);
      assert selectors == [selectors[0]] + selectors[1..];
    }
  }

  /** One selector of each key, taken from the list: what some selector matched, some selector still matches. */
  method Unique(selectors: seq<Selector>, collate: (Key, Key) -> bool) returns (r: seq<Selector>)
    ensures DistinctKeys(r)
    ensures forall s :: s in r ==> s in selectors
    ensures forall d :: SomeMatches(r, d) <==> SomeMatches(selectors, d)
  {
    var seen: set<Key> := {};
    var kept: seq<Selector> := [];
    for i := 0 to |selectors|
      invariant forall s :: s in selectors[..i] ==> KeyOf(s) in seen
      invariant forall k :: k in seen <==> exists t :: t in kept && KeyOf(t) == k
      invariant forall t :: t in kept ==> t in selectors
      invariant DistinctKeys(kept)
    {
      var key := KeyOf(selectors[i]);
      assert selectors[..i + 1] == selectors[..i] + [selectors[i]];
      if key !in seen {
        KeptStaysDistinct(kept, selectors[i]);
        seen := seen + {key};
        kept := kept + [selectors[i]];
      }
    }
    assert selectors[..|selectors|] == selectors;
    r := SortByKey(collate, kept);
    SortedAlike(collate, kept);
    KeysDecideMatches(selectors, kept, r);
  }

  lemma KeptStaysDistinct(kept: seq<Selector>, s: Selector)
    requires DistinctKeys(kept) && forall t :: t in kept ==> KeyOf(t) != KeyOf(s)
    ensures DistinctKeys(kept + [s])
  {
    forall k
      ensures CountKey(kept + [s], k) <= 1
    {
      CountKeyPush(kept, s, k);
      CountedKeyIsThere(kept, KeyOf(s));
    }
  }

  /** Sorting keeps the selectors and how often each key occurs. */
  lemma SortedAlike(collate: (Key, Key) -> bool, kept: seq<Selector>)
    requires DistinctKeys(kept)
    ensures DistinctKeys(SortByKey(collate, kept))
    ensures forall s :: s in SortByKey(collate, kept) <==> s in kept
  {
    var r := SortByKey(collate, kept);
    assert forall s :: s in r <==> s in multiset(r);
    assert forall s :: s in kept <==> s in multiset(kept);
    forall k
      ensures CountKey(r, k) <= 1
    {
      CountKeySorted(collate, kept, k);
    }
  }

  lemma KeysDecideMatches(selectors: seq<Selector>, kept: seq<Selector>, r: seq<Selector>)
    requires forall t :: t in kept ==> t in selectors
    requires forall t :: t in r <==> t in kept
    requires forall s :: s in selectors ==> exists t :: t in kept && KeyOf(t) == KeyOf(s)
    ensures forall d :: SomeMatches(r, d) <==> SomeMatches(selectors, d)
  {
    forall d
      ensures SomeMatches(r, d) <==> SomeMatches(selectors, d)
    {
      if SomeMatches(selectors, d) {
        var s :| s in selectors && Matches(s, d);
        var t := SameWritten(kept, s);
        SameKeySameMeaning(s, t, d);
      }
    }
  }

  lemma SameWritten(kept: seq<Selector>, s: Selector) returns (t: Selector)
    requires exists x :: x in kept && KeyOf(x) == KeyOf(s)
    ensures t in kept && KeyOf(t) == KeyOf(s)
  {
    t :| t in kept && KeyOf(t) == KeyOf(s);
  }

  // ----- intersecting policies -----

  /** Every selector of `left` merged with every one of `right` that it is compatible with. */
  function MergeRow(left: Selector, right: seq<Selector>): seq<Selector> {
    if right == [] then []
    else (if Merge(left, right[0]).Some? then [Merge(left, right[0]).value] else []) + MergeRow(left, right[1..])
  }

  function Product(left: seq<Selector>, right: seq<Selector>): seq<Selector> {
    if left == [] then [] else MergeRow(left[0], right) + Product(left[1..], right)
  }

  lemma SomeMatchesSplits(a: seq<Selector>, b: seq<Selector>, d: Descriptor)
    ensures SomeMatches(a + b, d) <==> SomeMatches(a, d) || SomeMatches(b, d)
  {
    if SomeMatches(a, d) {
      var s :| s in a && Matches(s, d);
      assert s in a + b;
    }
    if SomeMatches(b, d) {
      var s :| s in b && Matches(s, d);
      assert s in a + b;
    }
  }

  lemma SomeMatchesOne(s: Selector, d: Descriptor)
    ensures SomeMatches([s], d) <==> Matches(s, d)
  {
    assert s in [s];
  }

  lemma {:induction false} RowIsConjunction(left: Selector, right: seq<Selector>, d: Descriptor)
    ensures SomeMatches(MergeRow(left, right), d) <==> Matches(left, d) && SomeMatches(right, d)
  {
    if right != [] {
      RowIsConjunction(left, right[1..], d);
      MergeIsConjunction(left, right[0], d);
      var first := if Merge(left, right[0]).Some? then [Merge(left, right[0]).value] else [];
      SomeMatchesSplits(first, MergeRow(left, right[1..]), d);
      if Merge(left, right[0]).Some? {
        SomeMatchesOne(Merge(left, right[0]).value, d);
      }
      SomeMatchesOne(right[0], d);
      SomeMatchesSplits([right[0]], right[1..], d);
      assert right == [right[0]] + right[1..];
    }
  }

  lemma {:induction false} ProductIsConjunction(left: seq<Selector>, right: seq<Selector>, d: Descriptor)
    ensures SomeMatches(Product(left, right), d) <==> SomeMatches(left, d) && SomeMatches(right, d)
  {
    if left != [] {
      ProductIsConjunction(left[1..], right, d);
      RowIsConjunction(left[0], right, d);
      SomeMatchesSplits(MergeRow(left[0], right), Product(left[1..], right), d);
      SomeMatchesOne(left[0], d);
      SomeMatchesSplits([left[0]], left[1..], d);
      assert left == [left[0]] + left[1..];
    }
  }

  function AllowLists(ps: seq<Policy>): seq<Selector> {
    if ps == [] then [] else Listed(ps[0].allow) + AllowLists(ps[1..])
  }

  function DenyLists(ps: seq<Policy>): seq<Selector> {
    if ps == [] then [] else Listed(ps[0].deny) + DenyLists(ps[1..])
  }

  lemma {:induction false} ListsAreUnions(ps: seq<Policy>, d: Descriptor)
    ensures SomeMatches(AllowLists(ps), d) <==> exists p :: p in ps && SomeMatches(Listed(p.allow), d)
    ensures SomeMatches(DenyLists(ps), d) <==> exists p :: p in ps && SomeMatches(Listed(p.deny), d)
  {
    if ps != [] {
      ListsAreUnions(ps[1..], d);
      SomeMatchesSplits(Listed(ps[0].allow), AllowLists(ps[1..]), d);
      SomeMatchesSplits(Listed(ps[0].deny), DenyLists(ps[1..]), d);
      assert ps == [ps[0]] + ps[1..];
    }
  }

  /** What the lists of one more policy leave of `only`. */
  lemma OnlyNext(only: Option<seq<Selector>>, right: seq<Selector>, merged: seq<Selector>)
    requires merged == if only.None? then right else Product(only.value, right)
    ensures forall d :: SomeMatches(merged, d) <==> OnlyAdmits(only, d) && SomeMatches(right, d)
  {
    forall d
      ensures SomeMatches(merged, d) <==> OnlyAdmits(only, d) && SomeMatches(right, d)
    {
      if only.Some? {
        ProductIsConjunction(only.value, right, d);
      }
    }
  }

  /** The three lists of a policy that means what the policies mean together. */
  lemma MeansAll(ps: seq<Policy>, r: Policy, d: Descriptor)
    requires SomeMatches(Listed(r.allow), d) <==> SomeMatches(AllowLists(ps), d)
    requires SomeMatches(Listed(r.deny), d) <==> SomeMatches(DenyLists(ps), d)
    requires OnlyAdmits(r.only, d) <==> forall p :: p in ps ==> OnlyAdmits(p.only, d)
    ensures Allows(r, d) <==> AllowsAcross(ps, d)
    ensures Preapproves(r, d) <==> PreapprovesAcross(ps, d)
  {
    ListsAreUnions(ps, d);
  }

  /** One policy that means what all the policies mean together: for every descriptor it allows what they all allow
      and preapproves what the list preapproves. */
  method Intersect(ps: seq<Policy>, collate: (Key, Key) -> bool) returns (r: Policy)
    ensures forall d :: Allows(r, d) <==> AllowsAcross(ps, d)
    ensures forall d :: Preapproves(r, d) <==> PreapprovesAcross(ps, d)
    ensures DistinctKeys(Listed(r.allow)) && DistinctKeys(Listed(r.only)) && DistinctKeys(Listed(r.deny))
    ensures r.only.None? <==> forall p :: p in ps ==> p.only.None?
  {
    var allow := Unique(AllowLists(ps), collate);
    var deny := Unique(DenyLists(ps), collate);
    var only: Option<seq<Selector>> := None;
    for i := 0 to |ps|
      invariant forall d :: OnlyAdmits(only, d) <==> forall p :: p in ps[..i] ==> OnlyAdmits(p.only, d)
      invariant DistinctKeys(Listed(only))
      invariant only.None? <==> forall p :: p in ps[..i] ==> p.only.None?
    {
      assert ps[..i + 1] == ps[..i] + [ps[i]];
      if ps[i].only.Some? {
        var right := ps[i].only.value;
        var merged := if only.None? then right else Product(only.value, right);
        OnlyNext(only, right, merged);
        var unique := Unique(merged, collate);
        only := Some(unique);
      }
    }
    assert ps[..|ps|] == ps;
    r := Policy(if allow == [] then None else Some(allow), only, if deny == [] then None else Some(deny));
    assert Listed(r.allow) == allow && Listed(r.deny) == deny;
    forall d
      ensures Allows(r, d) <==> AllowsAcross(ps, d)
      ensures Preapproves(r, d) <==> PreapprovesAcross(ps, d)
    {
      MeansAll(ps, r, d);
    }
  }

  // ----- the normal form is again a policy -----

  /** The shape the policy schema asks of a selector: some field, and traits that are present only when there are
      any, each once. */
  ghost predicate WellFormed(s: Selector) {
    && (s.operation.Some? || s.scheme.Some? || s.runtime.Some? || s.tool.Some? || s.access.Some? || s.traits.Some?)
    && (s.traits.Some? ==> s.traits.value != [] && forall i, j :: 0 <= i < j < |s.traits.value| ==> s.traits.value[i] != s.traits.value[j])
  }

  lemma {:induction false} DistinctMultiset(s: seq<string>)
    ensures (forall i, j :: 0 <= i < j < |s| ==> s[i] != s[j]) <==> (forall x :: multiset(s)[x] <= 1)
  {
    if s != [] {
      DistinctMultiset(s[1..]);
      assert s == [s[0]] + s[1..];
      assert multiset(s) == multiset{s[0]} + multiset(s[1..]);
      if forall x :: multiset(s)[x] <= 1 {
        assert multiset(s)[s[0]] == 1 + multiset(s[1..])[s[0]];
        forall i, j | 0 <= i < j < |s|
          ensures s[i] != s[j]
        {
          assert s[j] == s[1..][j - 1];
          if i > 0 {
            assert s[i] == s[1..][i - 1];
            assert forall x :: multiset(s[1..])[x] <= multiset(s)[x];
          }
        }
      }
    }
  }

  /** Merging well-formed selectors gives a well-formed selector. */
  lemma MergeIsWellFormed(l: Selector, r: Selector)
    requires WellFormed(l) && WellFormed(r) && Merge(l, r).Some?
    ensures WellFormed(Merge(l, r).value)
  {
    var both := TraitsOf(l) + TraitsOf(r);
    DistinctMultiset(Distinct(both));
    DistinctMultiset(Sort(Distinct(both)));
    if l.traits.Some? {
      assert l.traits.value[0] in both;
      SortKeepsMembers(Distinct(both), l.traits.value[0]);
    }
    if r.traits.Some? {
      assert r.traits.value[0] in both;
      SortKeepsMembers(Distinct(both), r.traits.value[0]);
    }
  }
}
