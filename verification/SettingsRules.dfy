/**
The settings contract said once more, from outside: what a provider's field must be like to be shown and to be
writable, which requests a shown field accepts, and what a plan and its result tell the user.
*/
module SettingsRules {
  import opened Basics
  import opened Ordering
  import opened SettingsFields

  // ---------------------------------------------------------------- what is shown

  // Small enough to show: text of at most 1024 characters, an integer a browser holds exactly, a number up to 10^15.
  predicate IsSafe(v: Scalar) {
    match v
    case Str(s) => |s| <= 1024
    case Int(i) => -9007199254740991 <= i <= 9007199254740991
    case Real(r) => -1000000000000000.0 <= r <= 1000000000000000.0
    case Nothing => true
    case Bool(_) => true
  }

  predicate IsSafeNumber(v: Scalar) {
    IsSafe(v) && (v.Int? || v.Real?)
  }

  function ShownNumber(raw: Option<Scalar>): Option<Scalar> {
    if raw.Some? && IsSafeNumber(raw.value) then raw else None
  }

  /** A field is shown exactly when its path is safe, its label has 1 to 128 characters and its type is known; what
      looks like a secret is one, and then its value is withheld.  Unsafe values are shown as nothing. */
  lemma ShownExactly(raw: RawField)
    ensures Sanitize(raw).Some? <==> raw.safePath && 1 <= |raw.caption| <= 128 && raw.kind.Some?
    ensures Sanitize(raw).Some? ==>
              var f := Sanitize(raw).value;
              && f.path == raw.path && f.caption == raw.caption && f.critical == raw.critical
              && f.reconnect == raw.reconnect
              && f.kind == (if raw.looksSecret then SecretKind else raw.kind.value)
              && f.value == (if f.kind.SecretKind? || !IsSafe(raw.value) then Nothing else raw.value)
              && (f.configured <==> f.kind.SecretKind? && raw.configured)
              && (f.allowClear <==> f.kind.SecretKind? && raw.allowClear)
              && f.min == ShownNumber(raw.min) && f.max == ShownNumber(raw.max) && f.step == ShownNumber(raw.step)
              && (f.maxLength.Some? <==> raw.maxLength.Some? && raw.maxLength.value.Int? && raw.maxLength.value.i >= 1)
              && (f.maxLength.Some? ==>
                    f.maxLength.value == if raw.maxLength.value.i <= 1024 then raw.maxLength.value.i else 1024)
              && (!f.kind.SelectKind? ==> f.choices == [])
  {
  }

  // ---------------------------------------------------------------- what is writable

  // The limits a provider gives are usable: numbers are safe numbers, and a length is at least one.
  predicate LimitsUsable(raw: RawField) {
    && (raw.min.Some? ==> IsSafeNumber(raw.min.value))
    && (raw.max.Some? ==> IsSafeNumber(raw.max.value))
    && (raw.step.Some? ==> IsSafeNumber(raw.step.value))
    && (raw.maxLength.Some? ==> raw.maxLength.value.Int? && raw.maxLength.value.i >= 1)
  }

  // Both ends given, the value between them, and a step, if given, above zero.
  predicate WithinLimits(raw: RawField)
    requires LimitsUsable(raw) && raw.value.Numeric()
  {
    && raw.min.Some? && raw.max.Some? && raw.min.value.Num() <= raw.value.Num() <= raw.max.value.Num()
    && (raw.step.Some? ==> 0.0 < raw.step.value.Num())
  }

  // An option that can be offered: a safe value other than nothing, with a label of at most 128 characters.
  predicate Offerable(o: RawOption) {
    o.RawOption? && IsSafe(o.value) && !o.value.Nothing? && o.caption.Some? && |o.caption.value| <= 128
  }

  // Every mapping among the options can be offered, and no two of them have the same value.
  ghost predicate OptionsUsable(options: seq<RawOption>) {
    && (forall i | 0 <= i < |options| && options[i].RawOption? :: Offerable(options[i]))
    && (forall i, j | 0 <= i < j < |options| && options[i].RawOption? && options[j].RawOption? ::
          options[i].value != options[j].value)
  }

  ghost predicate Lists(options: seq<RawOption>, v: Scalar) {
    exists i :: 0 <= i < |options| && Offerable(options[i]) && options[i].value == v
  }

  /** What a select offers is the value of every option that can be offered; and its options are bad exactly when one
      cannot, or is repeated. */
  lemma {:induction false} OffersExactly(options: seq<RawOption>, v: Scalar)
    ensures Offers(Choices(options), v) <==> Lists(options, v)
    ensures !BadOptions(options) <==> OptionsUsable(options)
  {
    if options != [] {
      var n := |options| - 1;
      var before, o := options[..n], options[n];
      OffersExactly(before, v);
      OffersOneMore(before, o, v);
      if o.RawOption? {
        OffersExactly(before, o.value);
        assert UsableOption(o) <==> Offerable(o);
        UsableOneMore(before, o);
      } else {
        UsableOneMore(before, o);
      }
      assert options == before + [o];
    }
  }

  lemma OffersOneMore(before: seq<RawOption>, o: RawOption, v: Scalar)
    requires Offers(Choices(before), v) <==> Lists(before, v)
    ensures Offers(Choices(before + [o]), v) <==> Lists(before + [o], v)
  {
    var options := before + [o];
    assert options[..|before|] == before && options[|before|] == o;
    assert UsableOption(o) <==> Offerable(o);
    if Lists(before, v) {
      var i :| 0 <= i < |before| && Offerable(before[i]) && before[i].value == v;
      assert options[i] == before[i];
    }
    if Lists(options, v) {
      var i :| 0 <= i < |options| && Offerable(options[i]) && options[i].value == v;
      if i < |before| {
        assert before[i] == options[i];
      }
    }
    if Offerable(o) && !Offers(Choices(before), o.value) {
      var added := Choice(o.value, o.caption.value);
      assert Choices(options) == Choices(before) + [added];
      assert Choices(options)[|Choices(before)|] == added;
      assert forall c :: c in Choices(options) <==> c in Choices(before) || c == added;
    } else {
      assert Choices(options) == Choices(before);
    }
  }

  lemma UsableOneMore(before: seq<RawOption>, o: RawOption)
    ensures OptionsUsable(before + [o]) <==>
              OptionsUsable(before) && (o.RawOption? ==> Offerable(o) && forall i | 0 <= i < |before| ::
                before[i].RawOption? ==> before[i].value != o.value)
  {
    var options := before + [o];
    assert options[|before|] == o && forall i | 0 <= i < |before| :: options[i] == before[i];
  }

  /** Every choice is the first option of its value that can be offered, with that option's label. */
  lemma {:induction false} ChoicesAreFirst(options: seq<RawOption>, c: Choice)
    requires c in Choices(options)
    ensures exists i :: 0 <= i < |options| && Offerable(options[i]) && options[i] == RawOption(c.value, Some(c.caption))
                        && forall j | 0 <= j < i && Offerable(options[j]) :: options[j].value != c.value
  {
    var n := |options| - 1;
    var before := options[..n];
    if c in Choices(before) {
      ChoicesAreFirst(before, c);
      var i :| 0 <= i < n && Offerable(before[i]) && before[i] == RawOption(c.value, Some(c.caption))
               && forall j | 0 <= j < i && Offerable(before[j]) :: before[j].value != c.value;
      assert options[i] == before[i] && forall j | 0 <= j < i :: options[j] == before[j];
    } else {
      OffersExactly(before, c.value);
      assert Offerable(options[n]) && options[n] == RawOption(c.value, Some(c.caption));
      assert forall j | 0 <= j < n :: options[j] == before[j];
    }
  }

  // The first 256 options count.
  function Considered(raw: RawField): seq<RawOption> {
    if raw.options.None? then [] else if |raw.options.value| <= 256 then raw.options.value else raw.options.value[..256]
  }

  // The value is of the field's type, and the metadata is complete enough to write against.
  ghost predicate Sound(raw: RawField)
    requires raw.kind.Some? && LimitsUsable(raw)
  {
    if raw.looksSecret then true
    else
      match raw.kind.value
      case SecretKind => true
      case BooleanKind => raw.value.Bool?
      case IntegerKind => raw.value.Int? && IsSafe(raw.value) && WithinLimits(raw)
      case NumberKind => (raw.value.Int? || raw.value.Real?) && IsSafe(raw.value) && WithinLimits(raw)
      case StringKind => raw.value.Str? && IsSafe(raw.value)
      case SelectKind => OptionsUsable(Considered(raw)) && IsSafe(raw.value) && Lists(Considered(raw), raw.value)
  }

  /** A shown field is writable exactly when its provider says so, its limits are usable, and its value is sound. */
  lemma WritableExactly(raw: RawField)
    requires Sanitize(raw).Some?
    ensures Sanitize(raw).value.writable <==> raw.writable && LimitsUsable(raw) && Sound(raw)
  {
    assert SafeScalar(raw.value) == if IsSafe(raw.value) then raw.value else Nothing;
    assert Considered(raw) == FirstOptions(raw);
    OffersExactly(FirstOptions(raw), raw.value);
    OffersExactly(FirstOptions(raw), Nothing);
  }

  // ---------------------------------------------------------------- what is accepted

  predicate NotBelow(limit: Option<Scalar>, v: Scalar)
    requires v.Numeric()
  {
    limit.Some? && limit.value.Numeric() ==> limit.value.Num() <= v.Num()
  }

  predicate NotAbove(limit: Option<Scalar>, v: Scalar)
    requires v.Numeric()
  {
    limit.Some? && limit.value.Numeric() ==> v.Num() <= limit.value.Num()
  }

  /** The requests each type of field accepts: a secret only a replacement of at most its length (2048 by default)
      or, if configured and allowed, a removal; every other type only a plain value of its own kind within its
      limits, text of at most its length (1024 by default). */
  lemma AcceptedExactly(f: Field, r: Request)
    ensures f.kind.SecretKind? ==>
              (Accepts(f, r) <==>
                 || (r.Clear? && f.allowClear && f.configured)
                 || (r.Replace? && r.text != "" && |r.text| <= 2048
                     && (f.maxLength.Some? ==> |r.text| <= f.maxLength.value)))
    ensures !f.kind.SecretKind? && !r.Plain? ==> !Accepts(f, r)
    ensures r.Plain? ==>
              match f.kind
              case SecretKind => !Accepts(f, r)
              case BooleanKind => Accepts(f, r) <==> r.value.Bool?
              case IntegerKind =>
                Accepts(f, r) <==> r.value.Int? && NotBelow(f.min, r.value) && NotAbove(f.max, r.value)
              case NumberKind =>
                Accepts(f, r) <==>
                  (r.value.Int? || r.value.Real?) && NotBelow(f.min, r.value) && NotAbove(f.max, r.value)
              case StringKind => Accepts(f, r) <==> r.value.Int? || r.value.Real? || FitsIn(f.maxLength, r.value)
              case SelectKind =>
                Accepts(f, r) <==>
                  && (r.value.Int? || r.value.Real? || FitsIn(f.maxLength, r.value))
                  && exists c :: c in f.choices && c.value == r.value
  {
  }

  predicate FitsIn(limit: Option<int>, v: Scalar) {
    v.Str? && |v.s| <= if limit.Some? then limit.value else 1024
  }

  // ---------------------------------------------------------------- what a plan tells

  // A truth value counts as one or zero.
  function Worth(v: Scalar): Option<real> {
    match v
    case Bool(b) => Some(if b then 1.0 else 0.0)
    case Int(i) => Some(i as real)
    case Real(r) => Some(r)
    case _ => None
  }

  predicate SameValue(a: Scalar, b: Scalar) {
    if Worth(a).Some? then Worth(a) == Worth(b) else a == b
  }

  lemma LooselyEqualIsSameValue(a: Scalar, b: Scalar)
    ensures LooselyEqual(a, b) <==> SameValue(a, b)
  {
  }

  /** One change of a plan, as the user sees it: the field's own flags, and either the old and the new value or, for a
      secret, only whether one is configured and what will become of it. */
  predicate Tells(f: Field, r: Request, c: Change) {
    && c.path == f.path && c.request == r && c.critical == f.critical && c.reconnect == f.reconnect
    && (c.secret <==> f.kind.SecretKind?)
    && (if c.secret then
          && c.before == Str(if f.configured then "Configured" else "Not configured")
          && c.after == Str(if r == Clear then "Will be cleared" else "Will be replaced")
        else r.Plain? && c.before == f.value && c.after == r.value && !SameValue(f.value, r.value))
  }

  /** A plan tells of every accepted secret change and of every other change of value, and of nothing else; what is
      critical comes last, and otherwise paths are in order. */
  lemma PlanTells(fields: Fields, requests: map<string, Request>, plan: seq<Change>)
    requires Keyed(fields) && Allowed(fields, requests) && IsPlan(fields, requests, plan)
    ensures forall i | 0 <= i < |plan| ::
              var p := plan[i].path; p in requests && p in fields && Tells(fields[p], requests[p], plan[i])
    ensures forall p | p in requests &&
                       (fields[p].kind.SecretKind? || !SameValue(fields[p].value, requests[p].value)) ::
              exists i :: 0 <= i < |plan| && plan[i].path == p
    ensures forall i, j | 0 <= i < j < |plan| ::
              if plan[i].critical == plan[j].critical then TextLess(plan[i].path, plan[j].path) else plan[j].critical
  {
    forall p | p in requests
      ensures fields[p].kind.SecretKind? || requests[p].Plain?
      ensures Effective(fields[p], requests[p]) <==>
                fields[p].kind.SecretKind? || !SameValue(fields[p].value, requests[p].value)
    {
      if requests[p].Plain? {
        LooselyEqualIsSameValue(requests[p].value, fields[p].value);
      }
    }
    forall i | 0 <= i < |plan|
      ensures var p := plan[i].path; p in requests && p in fields && Tells(fields[p], requests[p], plan[i])
    {
      var p := plan[i].path;
      assert p in EffectivePaths(fields, requests);
    }
    forall p | p in requests && (fields[p].kind.SecretKind? || !SameValue(fields[p].value, requests[p].value))
      ensures exists i :: 0 <= i < |plan| && plan[i].path == p
    {
      assert p in EffectivePaths(fields, requests);
    }
    forall i, j | 0 <= i < j < |plan|
      ensures if plan[i].critical == plan[j].critical then TextLess(plan[i].path, plan[j].path) else plan[j].critical
    {
      assert Before(fields, plan[i].path, plan[j].path);
    }
  }

  // ---------------------------------------------------------------- what a result tells

  /** Without an adapter's own list a change is verified exactly when the field read afterwards shows it: the value that
      was asked for, a secret that is configured after a replacement, or one that is not after a removal. */
  lemma VerifiedExactly(changes: map<string, Request>, backend: Option<seq<string>>, after: Option<map<string, Shown>>,
                        p: string)
    ensures p in VerifiedPaths(changes, backend, after) <==>
              && p in changes
              && (if backend.Some? then p in backend.value
                  else
                    && after.Some? && p in after.value
                    && (if changes[p].Plain? then SameValue(after.value[p].value, changes[p].value)
                        else after.value[p].configured == Some(changes[p].Replace?)))
  {
    if p in changes && changes[p].Plain? && after.Some? && p in after.value {
      LooselyEqualIsSameValue(after.value[p].value, changes[p].value);
    }
  }
}
