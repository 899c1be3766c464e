/** Visiting the members of a set one at a time, as Python's `for x in s`
    does: the order is unspecified, and the visit order is recorded as a
    sequence that lists each member exactly once. */
module Enumeration {

  /** `order` lists the members of `s`, each exactly once. */
  ghost predicate Enumerates<T(!new)>(order: seq<T>, s: set<T>) {
    && (forall a, b :: 0 <= a < b < |order| ==> order[a] != order[b])
    && (forall x :: x in order <==> x in s)
  }

  /** Visiting one more, new member extends the list by that member. */
  lemma EnumeratesAppend<T(!new)>(order: seq<T>, s: set<T>, x: T)
    requires Enumerates(order, s) && x !in s
    ensures Enumerates(order + [x], s + {x})
  {
    var o := order + [x];
    forall a, b | 0 <= a < b < |o| ensures o[a] != o[b] {
      assert o[a] == order[a];
      if b < |order| { assert o[b] == order[b]; }
    }
    forall y ensures y in o <==> y in s + {x} {
      if y in o && y != x {
        var a :| 0 <= a < |o| && o[a] == y;
        assert a < |order| && order[a] == y;
      }
    }
  }

  /** A list naming each member of a set once is as long as the set. */
  lemma {:induction false} EnumeratesLength<T(!new)>(order: seq<T>, s: set<T>)
    requires Enumerates(order, s)
    ensures |order| == |s|
  {
    if |order| > 0 {
      var n := |order| - 1;
      var x := order[n];
      forall y ensures y in order[..n] <==> y in s - {x} {
        if y in order[..n] {
          var a :| 0 <= a < n && order[..n][a] == y;
          assert order[a] == y;
        }
        if y in s - {x} {
          var a :| 0 <= a < |order| && order[a] == y;
          assert a < n && order[..n][a] == y;
        }
      }
      EnumeratesLength(order[..n], s - {x});
    }
  }

  /** The position at which a listed member is visited. */
  lemma IndexOf<T(!new)>(order: seq<T>, s: set<T>, x: T) returns (k: nat)
    requires Enumerates(order, s) && x in s
    ensures k < |order| && order[k] == x
  {
    k :| 0 <= k < |order| && order[k] == x;
  }
}
