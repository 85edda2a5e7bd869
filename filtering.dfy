/**
 * A loop that visits a list and appends `f(x)` for each `x` passing a test,
 * as a function, with the positions it keeps.
 */
module Filtering {

  /** The images under `f` of the elements of `s` that satisfy `keep`, in order. */
  function FilterMap<T, U>(s: seq<T>, keep: T -> bool, f: T -> U): seq<U>
  {
    if s == [] then []
    else
      var last := s[|s| - 1];
      FilterMap(s[..|s| - 1], keep, f) + (if keep(last) then [f(last)] else [])
  }

  /** The positions of the elements of `s` that satisfy `keep`, in increasing order. */
  function Positions<T>(s: seq<T>, keep: T -> bool): (ix: seq<nat>)
    ensures forall k :: 0 <= k < |ix| ==> ix[k] < |s| && keep(s[ix[k]])
    ensures forall k, m :: 0 <= k < m < |ix| ==> ix[k] < ix[m]
    ensures forall i :: 0 <= i < |s| && keep(s[i]) ==> i in ix
  {
    if s == [] then []
    else
      var n := |s| - 1;
      var front := s[..n];
      var before := Positions(front, keep);
      var ix := before + (if keep(s[n]) then [n] else []);
      assert forall i :: 0 <= i < n ==> s[i] == front[i];
      assert forall k :: 0 <= k < |before| ==> ix[k] == before[k] && before[k] < n;
      ix
  }

  /** Element `k` of the filtered list is the image of the element at the `k`-th kept position. */
  lemma {:induction false} FilterMapAtPositions<T, U>(s: seq<T>, keep: T -> bool, f: T -> U)
    ensures |FilterMap(s, keep, f)| == |Positions(s, keep)|
    ensures forall k :: 0 <= k < |Positions(s, keep)| ==>
              FilterMap(s, keep, f)[k] == f(s[Positions(s, keep)[k]])
  {
    if s != [] {
      var n := |s| - 1;
      var front := s[..n];
      FilterMapAtPositions(front, keep, f);
      var fm, ps := FilterMap(front, keep, f), Positions(front, keep);
      var tailF := if keep(s[n]) then [f(s[n])] else [];
      var tailP := if keep(s[n]) then [n] else [];
      assert FilterMap(s, keep, f) == fm + tailF;
      assert Positions(s, keep) == ps + tailP;
      forall k | 0 <= k < |ps|
        ensures (fm + tailF)[k] == f(s[(ps + tailP)[k]])
      {
        assert (fm + tailF)[k] == fm[k];
        assert (ps + tailP)[k] == ps[k];
        assert s[ps[k]] == front[ps[k]];
      }
    }
  }

  /** Filtering a list with one more element in front puts that element's image, if kept, in front. */
  lemma {:induction false} FilterMapCons<T, U>(x: T, s: seq<T>, keep: T -> bool, f: T -> U)
    ensures FilterMap([x] + s, keep, f) == (if keep(x) then [f(x)] else []) + FilterMap(s, keep, f)
    decreases |s|
  {
    var head := if keep(x) then [f(x)] else [];
    if s == [] {
      assert [x] + s == [x];
      assert [x][..0] == [];
    } else {
      var n := |s| - 1;
      var t := [x] + s;
      assert t[..|t| - 1] == [x] + s[..n];
      assert t[|t| - 1] == s[n];
      FilterMapCons(x, s[..n], keep, f);
      var tail := if keep(s[n]) then [f(s[n])] else [];
      calc {
        FilterMap(t, keep, f);
        FilterMap([x] + s[..n], keep, f) + tail;
        (head + FilterMap(s[..n], keep, f)) + tail;
        head + (FilterMap(s[..n], keep, f) + tail);
        head + FilterMap(s, keep, f);
      }
    }
  }
}
