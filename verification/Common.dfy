/** Result shapes and a counting fact shared by the modules. */
module Common {

  datatype Option<+T> = None | Some(value: T)

  datatype Result<+T, +E> = Ok(value: T) | Err(error: E)

  ghost predicate Distinct<T>(s: seq<T>) {
    forall i, j :: 0 <= i < j < |s| ==> s[i] != s[j]
  }

  /** The elements of a set, in some order. */
  method Enumerate<T(==)>(s: set<T>) returns (list: seq<T>)
    ensures Distinct(list)
    ensures forall x :: x in list <==> x in s
  {
    list := [];
    var pending := s;
    while pending != {}
      invariant pending <= s
      invariant Distinct(list)
      invariant forall x :: x in list <==> x in s && x !in pending
    {
      var x :| x in pending;
      list := list + [x];
      pending := pending - {x};
    }
  }

  lemma SubsetSize<T>(a: set<T>, b: set<T>)
    requires a <= b
    ensures |a| <= |b|
    ensures |a| == |b| ==> a == b
  {
    assert b == a + (b - a);
  }
}
