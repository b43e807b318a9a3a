/** Notions shared by the components: an optional value, and facts about finite sets. */
module Basics {
  datatype Option<+T> = None | Some(value: T)

  lemma {:induction false} SmallerSet<T>(a: set<T>, b: set<T>)
    requires a <= b
    ensures |a| <= |b|
    ensures |a| == |b| ==> a == b
    decreases a
  {
    if x :| x in a {
      SmallerSet(a - {x}, b - {x});
      assert b == b - {x} + {x} && a == a - {x} + {x};
    } else {
      assert a == {};
    }
  }

  lemma Element<T>(s: set<T>) returns (x: T)
    requires s != {}
    ensures x in s
  {
    x :| x in s;
  }

  // The integers m, m + 1, up to but not including m + n.
  function Range(m: int, n: nat): (r: set<int>)
    ensures |r| == n && forall k :: k in r <==> m <= k < m + n
  {
    if n == 0 then {} else Range(m, n - 1) + {m + n - 1}
  }
}
