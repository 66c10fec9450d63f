/**
 * What one iteration of a rendering loop contributes, abstracted from the element it
 * visits: the raw type that decides the section, and the rows or lines it writes.
 */
module Sections {

  datatype Visit<T> = Visit(rtype: string, rows: seq<T>)

  /** The raw types of the visits, in order. */
  function Types<T>(vs: seq<Visit<T>>): (ts: seq<string>)
    ensures |ts| == |vs|
    ensures forall i :: 0 <= i < |vs| ==> ts[i] == vs[i].rtype
  {
    if vs == [] then [] else Types(vs[..|vs| - 1]) + [vs[|vs| - 1].rtype]
  }

  /** All rows of the visits, in order. */
  function Concat<T>(vs: seq<Visit<T>>): seq<T>
  {
    if vs == [] then [] else Concat(vs[..|vs| - 1]) + vs[|vs| - 1].rows
  }

  lemma TypesSnoc<T>(vs: seq<Visit<T>>, v: Visit<T>)
    ensures Types(vs + [v]) == Types(vs) + [v.rtype]
    ensures Concat(vs + [v]) == Concat(vs) + v.rows
  {
    assert (vs + [v])[..|vs|] == vs;
  }

  /** When every visit writes exactly one row, the rows are those single rows, one per visit. */
  lemma {:induction false} ConcatSingles<T>(vs: seq<Visit<T>>)
    requires forall i :: 0 <= i < |vs| ==> |vs[i].rows| == 1
    ensures |Concat(vs)| == |vs|
    ensures forall i :: 0 <= i < |vs| ==> Concat(vs)[i] == vs[i].rows[0]
  {
    if vs != [] {
      var init := vs[..|vs| - 1];
      ConcatSingles(init);
      assert vs[|vs| - 1].rows == [vs[|vs| - 1].rows[0]];
    }
  }

  /** Where the parts of a first element, a middle part and a rest end up in their concatenation. */
  lemma PartsIndex<T>(x: T, mid: seq<T>, rest: seq<T>)
    ensures var s := [x] + mid + rest;
            |s| == 1 + |mid| + |rest| && s[0] == x &&
            (forall i :: 1 <= i <= |mid| ==> s[i] == mid[i - 1]) &&
            (forall i :: |mid| < i < |s| ==> s[i] == rest[i - 1 - |mid|])
  {
  }
}
