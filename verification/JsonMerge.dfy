/** Merging nested dictionaries without dropping existing values: when it is idempotent and associative. */
module JsonMerge {
  import opened Basics

  // A JSON value; scalars and lists are leaves.
  datatype Json = Null | Flag(on: bool) | Leaf(text: string) | Obj(fields: map<string, Json>)

  type Fields = map<string, Json>

  /** One value over another: null keeps the old value, two dictionaries merge key by key, and anything
      else replaces.  A key that only the update has is taken as it is, unless it is null. */
  function Merge(base: Json, update: Json): Json
    decreases update
  {
    if update.Null? then base
    else if base.Obj? && update.Obj? then
      Obj(map k | k in base.fields.Keys + update.fields.Keys && (k in base.fields || !update.fields[k].Null?) ::
            if k !in update.fields then base.fields[k]
            else if k in base.fields then Merge(base.fields[k], update.fields[k])
            else update.fields[k])
    else update
  }

  // The dictionary merge as a loop over the update's items.
  method MergeDict(base: Fields, update: Json) returns (merged: Fields)
    requires update.Obj?
    ensures Obj(merged) == Merge(Obj(base), update)
    decreases update
  {
    merged := base;
    var rest := update.fields.Keys;
    while rest != {}
      invariant rest <= update.fields.Keys
      invariant forall k :: k in merged <==> k in base || (k in update.fields && k !in rest && !update.fields[k].Null?)
      invariant forall k | k in merged ::
                  merged[k] == if k !in update.fields || k in rest then base[k]
                               else if k in base then Merge(base[k], update.fields[k])
                               else update.fields[k]
      decreases rest
    {
      var k :| k in rest;
      rest := rest - {k};
      var value := update.fields[k];
      if value.Null? {
        continue;
      }
      if value.Obj? && k in merged && merged[k].Obj? {
        var inner := MergeDict(merged[k].fields, value);
        merged := merged[k := Obj(inner)];
      } else {
        merged := merged[k := value];
      }
    }
  }

  lemma {:induction false} MergeWithSelf(a: Json)
    ensures Merge(a, a) == a
    decreases a
  {
    if a.Obj? {
      forall k | k in a.fields
        ensures Merge(a.fields[k], a.fields[k]) == a.fields[k]
      {
        MergeWithSelf(a.fields[k]);
      }
    }
  }

  /** Applying an update a second time changes nothing. */
  lemma {:induction false} MergeTwice(base: Json, update: Json)
    ensures Merge(Merge(base, update), update) == Merge(base, update)
    decreases update
  {
    if base.Obj? && update.Obj? {
      var once := Merge(base, update);
      forall k | k in once.fields && k in update.fields
        ensures Merge(once.fields[k], update.fields[k]) == once.fields[k]
      {
        if k in base.fields {
          MergeTwice(base.fields[k], update.fields[k]);
        } else {
          MergeWithSelf(update.fields[k]);
        }
      }
    } else {
      MergeWithSelf(update);
    }
  }

  // c has everything a has, and no null of its own.
  predicate Covers(c: Json, a: Json)
    decreases c
  {
    a.Obj? && c.Obj? ==>
      && (forall k | k in c.fields && c.fields[k].Null? :: k in a.fields && a.fields[k].Null?)
      && (forall k | k in a.fields :: k in c.fields && Covers(c.fields[k], a.fields[k]))
  }

  lemma {:induction false} CoveredIsReplaced(a: Json, c: Json)
    requires !c.Null?
    ensures Merge(a, c) == c <==> Covers(c, a)
    decreases c
  {
    if a.Obj? && c.Obj? {
      var m := Merge(a, c);
      forall k | k in a.fields && k in c.fields && !c.fields[k].Null?
        ensures m.fields[k] == c.fields[k] <==> Covers(c.fields[k], a.fields[k])
      {
        CoveredIsReplaced(a.fields[k], c.fields[k]);
      }
      if m == c {
        forall k | k in a.fields
          ensures k in c.fields && Covers(c.fields[k], a.fields[k])
        {
          assert k in m.fields;
        }
        forall k | k in c.fields && c.fields[k].Null?
          ensures k in a.fields && a.fields[k].Null?
        {
          assert m.fields[k] == c.fields[k];
          assert k in a.fields ==> Merge(a.fields[k], Null) == a.fields[k];
        }
      }
      if Covers(c, a) {
        assert m.fields.Keys == c.fields.Keys;
      }
    }
  }

  // No path holds a dictionary, then a leaf, then a dictionary that would forget some of the first.
  predicate Associable(a: Json, b: Json, c: Json)
    decreases c
  {
    a.Obj? && c.Obj? ==>
      match b
      case Null => true
      case Obj(_) =>
        forall k | k in a.fields && k in b.fields && k in c.fields ::
          Associable(a.fields[k], b.fields[k], c.fields[k])
      case _ => Covers(c, a)
  }

  /** Merging is associative exactly on the associable triples. */
  lemma {:induction false} MergeIsAssociative(a: Json, b: Json, c: Json)
    ensures Merge(Merge(a, b), c) == Merge(a, Merge(b, c)) <==> Associable(a, b, c)
    decreases c
  {
    if a.Obj? && b.Obj? && c.Obj? {
      AssociativePointwise(a, b, c);
    } else if a.Obj? && c.Obj? && !b.Null? {
      CoveredIsReplaced(a, c);
    }
  }

  // What one key holds after a merge; None stands for a missing key.
  function At(j: Json, k: string): Option<Json>
    requires j.Obj?
  {
    if k in j.fields then Some(j.fields[k]) else None
  }

  function MergeAt(base: Option<Json>, update: Option<Json>): Option<Json> {
    match (base, update)
    case (_, None) => base
    case (None, Some(u)) => if u.Null? then None else update
    case (Some(b), Some(u)) => Some(Merge(b, u))
  }

  lemma MergeIsPointwise(base: Json, update: Json, k: string)
    requires base.Obj? && update.Obj?
    ensures Merge(base, update).Obj? && At(Merge(base, update), k) == MergeAt(At(base, k), At(update, k))
  {
  }

  lemma SameFields(a: Json, b: Json)
    requires a.Obj? && b.Obj?
    ensures a == b <==> forall k :: At(a, k) == At(b, k)
  {
    if forall k :: At(a, k) == At(b, k) {
      forall k
        ensures (k in a.fields <==> k in b.fields) && (k in a.fields ==> a.fields[k] == b.fields[k])
      {
        assert At(a, k) == At(b, k);
      }
      assert a.fields == b.fields;
    }
  }

  // With one of the three missing, or the middle one null, the order never matters.
  lemma PartialAssociates(a: Option<Json>, b: Option<Json>, c: Option<Json>)
    requires a.None? || b.None? || c.None?
    ensures MergeAt(MergeAt(a, b), c) == MergeAt(a, MergeAt(b, c))
  {
  }

  lemma {:induction false} AssociativePointwise(a: Json, b: Json, c: Json)
    requires a.Obj? && b.Obj? && c.Obj?
    ensures Merge(Merge(a, b), c) == Merge(a, Merge(b, c)) <==> Associable(a, b, c)
    decreases c, 1
  {
    var left, right := Merge(Merge(a, b), c), Merge(a, Merge(b, c));
    forall k
      ensures At(left, k) == At(right, k) <==>
              (k in a.fields && k in b.fields && k in c.fields ==> Associable(a.fields[k], b.fields[k], c.fields[k]))
    {
      AssociativeAt(a, b, c, k);
    }
    SameFields(left, right);
  }

  lemma {:induction false} AssociativeAt(a: Json, b: Json, c: Json, k: string)
    requires a.Obj? && b.Obj? && c.Obj?
    ensures At(Merge(Merge(a, b), c), k) == At(Merge(a, Merge(b, c)), k) <==>
            (k in a.fields && k in b.fields && k in c.fields ==> Associable(a.fields[k], b.fields[k], c.fields[k]))
    decreases c, 0
  {
    MergeIsPointwise(a, b, k);
    MergeIsPointwise(Merge(a, b), c, k);
    MergeIsPointwise(b, c, k);
    MergeIsPointwise(a, Merge(b, c), k);
    if k in a.fields && k in b.fields && k in c.fields {
      MergeIsAssociative(a.fields[k], b.fields[k], c.fields[k]);
    } else {
      PartialAssociates(At(a, k), At(b, k), At(c, k));
    }
  }

  // Each path of one value that the other has too is a dictionary in both or in neither, nulls aside.
  predicate SameShape(a: Json, b: Json)
    decreases a
  {
    if a.Null? || b.Null? then true
    else if a.Obj? && b.Obj? then forall k | k in a.fields && k in b.fields :: SameShape(a.fields[k], b.fields[k])
    else !a.Obj? && !b.Obj?
  }

  /** Data that is consistently a leaf or a dictionary on every path may be merged in any grouping. */
  lemma {:induction false} ConsistentDataAssociates(a: Json, b: Json, c: Json)
    requires SameShape(a, b) && SameShape(b, c)
    ensures Merge(Merge(a, b), c) == Merge(a, Merge(b, c))
  {
    ConsistentIsAssociable(a, b, c);
    MergeIsAssociative(a, b, c);
  }

  lemma {:induction false} ConsistentIsAssociable(a: Json, b: Json, c: Json)
    requires SameShape(a, b) && SameShape(b, c)
    ensures Associable(a, b, c)
    decreases c
  {
    if a.Obj? && b.Obj? && c.Obj? {
      forall k | k in a.fields && k in b.fields && k in c.fields
        ensures Associable(a.fields[k], b.fields[k], c.fields[k])
      {
        ConsistentIsAssociable(a.fields[k], b.fields[k], c.fields[k]);
      }
    }
  }

  /** A leaf between two dictionaries is where grouping shows: merged from the left the leaf wipes the
      first dictionary out, merged from the right it survives. */
  lemma LeafBetweenDictionaries()
    ensures var a, b, c := Obj(map["rssi" := Leaf("-90")]), Leaf("n/a"), Obj(map["snr" := Leaf("7")]);
            && Merge(Merge(a, b), c) == c
            && Merge(a, Merge(b, c)) == Obj(map["rssi" := Leaf("-90"), "snr" := Leaf("7")])
            && !Associable(a, b, c)
  {
    var a, b, c := Obj(map["rssi" := Leaf("-90")]), Leaf("n/a"), Obj(map["snr" := Leaf("7")]);
    assert Merge(a, c).fields.Keys == {"rssi", "snr"};
    MergeIsAssociative(a, b, c);
    assert "rssi" in Merge(a, c).fields && "rssi" !in c.fields;
  }
}
