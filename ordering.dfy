/** The order in which the store lists a collection: ascending by document
    id, comparing ids code unit by code unit. */
module Ordering {
  import opened Text

  predicate IsLeast(k: string, s: set<string>) {
    k in s && forall j :: j in s ==> StrLeq(k, j)
  }

  lemma {:induction false} LeastExists(s: set<string>)
    requires s != {}
    ensures exists k :: IsLeast(k, s)
    decreases |s|
  {
    var x :| x in s;
    StrLeqReflexive(x);
    if s == {x} {
      assert IsLeast(x, s);
    } else {
      LeastExists(s - {x});
      var m :| IsLeast(m, s - {x});
      StrLeqTotal(x, m);
      if StrLeq(x, m) {
        forall j | j in s ensures StrLeq(x, j) {
          if j != x {
            assert j in s - {x};
            StrLeqTransitive(x, m, j);
          }
        }
        assert IsLeast(x, s);
      } else {
        assert IsLeast(m, s);
      }
    }
  }

  lemma LeastUnique(s: set<string>)
    ensures forall a, b :: IsLeast(a, s) && IsLeast(b, s) ==> a == b
  {
    forall a, b | IsLeast(a, s) && IsLeast(b, s) ensures a == b {
      StrLeqAntisymmetric(a, b);
    }
  }

  /** `r` lists its elements in strictly ascending order. */
  predicate Ascending(r: seq<string>) {
    forall i, j :: 0 <= i < j < |r| ==> StrLeq(r[i], r[j]) && r[i] != r[j]
  }

  /** The elements of a finite set of ids in ascending order. */
  function SortedKeys(s: set<string>): (r: seq<string>)
    ensures |r| == |s|
    ensures forall k :: k in r <==> k in s
    ensures Ascending(r)
    decreases |s|
  {
    if s == {} then []
    else
      LeastExists(s);
      LeastUnique(s);
      var k :| IsLeast(k, s);
      var rest := SortedKeys(s - {k});
      assert forall i :: 0 < i < |rest| + 1 ==> ([k] + rest)[i] == rest[i - 1];
      [k] + rest
  }
}
