// Shared vocabulary.
module Collections {
  datatype Option<T> = None | Some(value: T)

  ghost predicate Distinct<T>(s: seq<T>) {
    forall i, j :: 0 <= i < j < |s| ==> s[i] != s[j]
  }

  lemma {:induction false} SubsetNoLarger<T>(a: set<T>, b: set<T>)
    requires a <= b
    ensures |a| <= |b|
  {
    if a != {} {
      var x :| x in a;
      SubsetNoLarger(a - {x}, b - {x});
    }
  }

  lemma {:induction false} SubsetOfSameSize<T>(a: set<T>, b: set<T>)
    requires a <= b && |a| == |b|
    ensures a == b
  {
    if a != {} {
      var x :| x in a;
      SubsetOfSameSize(a - {x}, b - {x});
    }
  }

  lemma {:induction false} InSomeOrder<T>(a: set<T>) returns (list: seq<T>)
    ensures Distinct(list) && |list| == |a| && forall x :: x in list <==> x in a
  {
    if a == {} {
      list := [];
    } else {
      var x :| x in a;
      var rest := InSomeOrder(a - {x});
      list := [x] + rest;
    }
  }
}
