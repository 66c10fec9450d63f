/** A print writer, seen as the sequence of what has been printed to it. */
module Writers {

  class Writer<T> {
    var written: seq<T>

    constructor ()
      ensures written == []
    {
      written := [];
    }

    /** One print call. */
    method Print(t: T)
      modifies this
      ensures written == old(written) + [t]
    {
      written := written + [t];
    }

    /** Printing everything another writer collected, in its order. */
    method PrintAll(ts: seq<T>)
      modifies this
      ensures written == old(written) + ts
    {
      written := written + ts;
    }
  }

  // Regrouping what was written. Stated over arbitrary sequences, so that a proof about
  // output never has to compare two outputs element by element.

  lemma Regroup3<T>(a: seq<T>, b: seq<T>, c: seq<T>)
    ensures a + b + c == a + (b + c)
  {
  }

  lemma Regroup4<T>(a: seq<T>, b: seq<T>, c: seq<T>, d: seq<T>)
    ensures a + b + c + d == a + (b + c + d)
  {
  }

  lemma AppendNothing<T>(a: seq<T>)
    ensures a + [] == a && [] + a == a
  {
  }

  lemma PrefixSnoc<T>(s: seq<T>, i: int)
    requires 0 <= i < |s|
    ensures s[..i + 1] == s[..i] + [s[i]]
  {
  }

  lemma PrefixAll<T>(s: seq<T>)
    ensures s[..|s|] == s
  {
  }
}
