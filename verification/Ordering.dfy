/** Strict orders, sorting a set by one, and the order of strings. */
module Ordering {

  ghost predicate StrictOrder<T(!new)>(less: (T, T) -> bool, s: set<T>) {
    && (forall a, b | a in s && b in s :: a == b || less(a, b) || less(b, a))
    && (forall a, b | a in s && b in s :: !(less(a, b) && less(b, a)))
    && (forall a, b, c | a in s && b in s && c in s && less(a, b) && less(b, c) :: less(a, c))
  }

  ghost predicate SortedBy<T>(less: (T, T) -> bool, r: seq<T>) {
    forall i, j | 0 <= i < j < |r| :: less(r[i], r[j])
  }

  function Members<T>(r: seq<T>): set<T> {
    set x | x in r
  }

  lemma {:induction false} SortedSize<T(!new)>(less: (T, T) -> bool, r: seq<T>)
    requires SortedBy(less, r) && StrictOrder(less, Members(r))
    ensures |Members(r)| == |r|
  {
    if r != [] {
      var front, last := r[..|r| - 1], r[|r| - 1];
      assert r == front + [last];
      assert Members(r) == Members(front) + {last};
      SortedSize(less, front);
      assert last !in front by {
        assert !less(last, last);
      }
    } else {
      assert Members(r) == {};
    }
  }

  // Inserts one element into a sorted sequence, from the end.
  method Insert<T(!new)>(r: seq<T>, x: T, less: (T, T) -> bool) returns (s: seq<T>)
    requires SortedBy(less, r) && StrictOrder(less, Members(r) + {x}) && x !in r
    ensures SortedBy(less, s) && Members(s) == Members(r) + {x}
  {
    var i := |r|;
    while i > 0 && less(x, r[i - 1])
      invariant 0 <= i <= |r|
      invariant forall j | i <= j < |r| :: less(x, r[j])
    {
      i := i - 1;
    }
    s := r[..i] + [x] + r[i..];
    forall j | 0 <= j < i
      ensures less(r[j], x)
    {
      assert r[i - 1] in Members(r) && r[j] in Members(r);
      assert j < i - 1 ==> less(r[j], r[i - 1]);
    }
    assert forall y :: y in s <==> y in r || y == x;
  }

  method Sort<T(==, !new)>(elements: set<T>, less: (T, T) -> bool) returns (r: seq<T>)
    requires StrictOrder(less, elements)
    ensures SortedBy(less, r) && Members(r) == elements && |r| == |elements|
  {
    r := [];
    var rest := elements;
    while rest != {}
      invariant rest <= elements && SortedBy(less, r) && Members(r) == elements - rest
      decreases rest
    {
      var x :| x in rest;
      assert x !in Members(r);
      r := Insert(r, x, less);
      rest := rest - {x};
    }
    SortedSize(less, r);
  }

  /** A set has only one sorted listing. */
  lemma {:induction false} SortedIsUnique<T(!new)>(less: (T, T) -> bool, a: seq<T>, b: seq<T>)
    requires SortedBy(less, a) && SortedBy(less, b) && Members(a) == Members(b) && StrictOrder(less, Members(a))
    ensures a == b
  {
    SortedSize(less, a);
    SortedSize(less, b);
    if a != [] {
      assert a[0] in Members(b) && b[0] in Members(a);
      assert a[0] == b[0] by {
        var i :| 0 <= i < |b| && b[i] == a[0];
        var j :| 0 <= j < |a| && a[j] == b[0];
      }
      assert a == [a[0]] + a[1..] && b == [b[0]] + b[1..];
      assert a[0] !in a[1..] && b[0] !in b[1..] by {
        assert !less(a[0], a[0]);
      }
      assert Members(a[1..]) == Members(a) - {a[0]} && Members(b[1..]) == Members(b) - {b[0]};
      SortedIsUnique(less, a[1..], b[1..]);
    }
  }

  // The order of strings, by code point.
  predicate TextLess(a: string, b: string) {
    b != [] && (a == [] || a[0] < b[0] || (a[0] == b[0] && TextLess(a[1..], b[1..])))
  }

  // The strings agree before i, where the first one ends or has the smaller character.
  predicate DiffersAt(a: string, b: string, i: nat) {
    i <= |a| && i < |b| && a[..i] == b[..i] && (i < |a| ==> a[i] < b[i])
  }

  lemma {:induction false} DifferenceDecides(a: string, b: string, i: nat)
    requires DiffersAt(a, b, i)
    ensures TextLess(a, b)
  {
    if i > 0 {
      assert a[0] == a[..i][0] == b[..i][0] == b[0];
      assert a[1..][..i - 1] == a[..i][1..] && b[1..][..i - 1] == b[..i][1..];
      DifferenceDecides(a[1..], b[1..], i - 1);
    }
  }

  lemma {:induction false} LessDiffers(a: string, b: string) returns (i: nat)
    requires TextLess(a, b)
    ensures DiffersAt(a, b, i)
  {
    i := 0;
    if a != [] && a[0] == b[0] {
      var k := LessDiffers(a[1..], b[1..]);
      i := k + 1;
      assert a[..i] == [a[0]] + a[1..][..k] && b[..i] == [b[0]] + b[1..][..k];
    }
  }

  /** The order is that of the first difference, and a proper prefix comes first. */
  lemma TextLessMeans(a: string, b: string)
    ensures TextLess(a, b) <==>
              exists i: nat :: i <= |a| && i < |b| && a[..i] == b[..i] && (i < |a| ==> a[i] < b[i])
  {
    if TextLess(a, b) {
      var i := LessDiffers(a, b);
    }
    if i: nat :| i <= |a| && i < |b| && a[..i] == b[..i] && (i < |a| ==> a[i] < b[i]) {
      DifferenceDecides(a, b, i);
    }
  }

  lemma {:induction false} TextTotal(a: string, b: string)
    ensures a == b || TextLess(a, b) || TextLess(b, a)
    ensures !(TextLess(a, b) && TextLess(b, a))
  {
    if a != [] && b != [] {
      TextTotal(a[1..], b[1..]);
      assert a == [a[0]] + a[1..] && b == [b[0]] + b[1..];
    }
  }

  lemma {:induction false} TextTrans(a: string, b: string, c: string)
    requires TextLess(a, b) && TextLess(b, c)
    ensures TextLess(a, c)
  {
    if a != [] && a[0] == b[0] == c[0] {
      TextTrans(a[1..], b[1..], c[1..]);
    }
  }

  lemma TextOrder(s: set<string>)
    ensures StrictOrder(TextLess, s)
  {
    forall a, b
      ensures a == b || TextLess(a, b) || TextLess(b, a)
      ensures !(TextLess(a, b) && TextLess(b, a))
    {
      TextTotal(a, b);
    }
    forall a, b, c | TextLess(a, b) && TextLess(b, c)
      ensures TextLess(a, c)
    {
      TextTrans(a, b, c);
    }
  }
}
