/** Membership toggling, shared by every selection handler of the system. */
module Sets {

  /** Insert `x` when it is absent, remove it when it is present. */
  function Toggle(s: set<string>, x: string): (r: set<string>)
    ensures x in r <==> x !in s
    ensures forall y :: y != x ==> (y in r <==> y in s)
  {
    if x in s then s - {x} else s + {x}
  }

  /** Toggling twice restores the set. */
  lemma ToggleTwice(s: set<string>, x: string)
    ensures Toggle(Toggle(s, x), x) == s
  {
  }

  /** The elements of a `Set` or of a dictionary's keys in the order a
      `for` loop visits them: some order, each element once. */
  method Enumerate<T>(s: set<T>) returns (r: seq<T>)
    ensures forall x :: x in r <==> x in s
    ensures forall i, j :: 0 <= i < j < |r| ==> r[i] != r[j]
    ensures |r| == |s|
  {
    r := [];
    var pending := s;
    while pending != {}
      invariant forall x :: x in s <==> x in r || x in pending
      invariant forall x :: x in r ==> x !in pending
      invariant forall i, j :: 0 <= i < j < |r| ==> r[i] != r[j]
      invariant |r| + |pending| == |s|
      decreases pending
    {
      var x :| x in pending;
      r := r + [x];
      pending := pending - {x};
    }
  }
}
