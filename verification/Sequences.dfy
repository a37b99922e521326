/** Lists without repeats. */
module Sequences {

  predicate NoRepeats<T(==)>(s: seq<T>) {
    forall i, j :: 0 <= i < j < |s| ==> s[i] != s[j]
  }

  /** The members in order of first mention, each once. */
  function Distinct<T(==,!new)>(s: seq<T>): (r: seq<T>)
    ensures forall x :: x in r <==> x in s
    ensures NoRepeats(r)
  {
    if s == [] then []
    else
      var last := |s| - 1;
      var init := Distinct(s[..last]);
      assert s == s[..last] + [s[last]];
      if s[last] in init then init else init + [s[last]]
  }
}
