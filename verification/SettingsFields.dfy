/**
The generic settings contract: the sanitizer that turns provider fields into safe public ones, and the
validator that checks requested changes against them.  Numbers with a fraction are real numbers, so the
non-finite ones are not modelled; explanatory texts are left out.
*/
module SettingsFields {
  import opened Basics
  import opened Ordering

  const MAX_STRING := 1024
  const MAX_SECRET := 2048
  const MAX_LABEL := 128
  const MAX_OPTIONS := 256
  const MAX_SAFE_INTEGER := 0x1F_FFFF_FFFF_FFFF
  const MAX_REAL := 1000000000000000.0

  datatype Scalar = Nothing | Bool(on: bool) | Int(i: int) | Real(r: real) | Str(s: string) {
    predicate Numeric() {
      Int? || Real?
    }

    function Num(): real
      requires Numeric()
    {
      if Int? then i as real else r
    }
  }

  // Equality as the dynamic language has it: numbers and truth values compare by value.
  predicate LooselyEqual(a: Scalar, b: Scalar) {
    var x := if a.Bool? then Int(if a.on then 1 else 0) else a;
    var y := if b.Bool? then Int(if b.on then 1 else 0) else b;
    if x.Numeric() && y.Numeric() then x.Num() == y.Num() else x == y
  }

  function SafeScalar(v: Scalar): Scalar {
    match v
    case Str(s) => if |s| <= MAX_STRING then v else Nothing
    case Int(i) => if -MAX_SAFE_INTEGER <= i <= MAX_SAFE_INTEGER then v else Nothing
    case Real(r) => if -MAX_REAL <= r <= MAX_REAL then v else Nothing
    case _ => v
  }

  datatype Kind = BooleanKind | IntegerKind | NumberKind | StringKind | SelectKind | SecretKind

  datatype RawOption = NotAMapping | RawOption(value: Scalar, caption: Option<string>)

  // A field as a provider describes it; looksSecret: its path or caption holds one of the secret markers.
  datatype RawField = RawField(
    path: string, safePath: bool, caption: string, kind: Option<Kind>, looksSecret: bool,
    writable: bool, critical: bool, reconnect: bool,
    value: Scalar, configured: bool, allowClear: bool,
    min: Option<Scalar>, max: Option<Scalar>, step: Option<Scalar>, maxLength: Option<Scalar>,
    options: Option<seq<RawOption>>)

  datatype Choice = Choice(value: Scalar, caption: string)

  datatype Field = Field(
    path: string, caption: string, kind: Kind, writable: bool, critical: bool, reconnect: bool,
    value: Scalar, configured: bool, allowClear: bool,
    min: Option<Scalar>, max: Option<Scalar>, step: Option<Scalar>, maxLength: Option<int>,
    choices: seq<Choice>)

  // ---------------------------------------------------------------- sanitizing

  function SafeNumber(raw: Option<Scalar>): Option<Scalar> {
    if raw.Some? && SafeScalar(raw.value).Numeric() then Some(SafeScalar(raw.value)) else None
  }

  predicate UsableOption(o: RawOption) {
    o.RawOption? && !SafeScalar(o.value).Nothing? && o.caption.Some? && |o.caption.value| <= MAX_LABEL
  }

  predicate Offers(choices: seq<Choice>, v: Scalar) {
    exists c | c in choices :: c.value == v
  }

  function Choices(options: seq<RawOption>): seq<Choice> {
    if options == [] then []
    else
      var before, o := Choices(options[..|options| - 1]), options[|options| - 1];
      if UsableOption(o) && !Offers(before, SafeScalar(o.value))
      then before + [Choice(SafeScalar(o.value), o.caption.value)] else before
  }

  // Some mapping among the options was unusable or repeated.
  predicate BadOptions(options: seq<RawOption>) {
    options != [] &&
    (var o := options[|options| - 1];
     BadOptions(options[..|options| - 1])
     || (o.RawOption? && (!UsableOption(o) || Offers(Choices(options[..|options| - 1]), SafeScalar(o.value)))))
  }

  method SanitizeOptions(options: seq<RawOption>) returns (choices: seq<Choice>, bad: bool)
    ensures choices == Choices(options) && bad == BadOptions(options)
  {
    choices, bad := [], false;
    for i := 0 to |options|
      invariant choices == Choices(options[..i]) && bad == BadOptions(options[..i])
    {
      assert options[..i + 1][..i] == options[..i];
      var o := options[i];
      if !o.RawOption? {
        continue;
      }
      var value := SafeScalar(o.value);
      if value.Nothing? || o.caption.None? || |o.caption.value| > MAX_LABEL {
        bad := true;
        continue;
      }
      if Offers(choices, value) {
        bad := true;
        continue;
      }
      choices := choices + [Choice(value, o.caption.value)];
    }
    assert options[..|options|] == options;
  }

  function KindOf(raw: RawField): Kind
    requires raw.kind.Some?
  {
    if raw.looksSecret then SecretKind else raw.kind.value
  }

  predicate BadLength(raw: Option<Scalar>) {
    raw.Some? && !(raw.value.Int? && raw.value.i >= 1)
  }

  function SafeLength(raw: Option<Scalar>): Option<int> {
    if raw.Some? && raw.value.Int? && raw.value.i >= 1
    then Some(if raw.value.i > MAX_STRING then MAX_STRING else raw.value.i)
    else None
  }

  predicate BadNumbers(raw: RawField) {
    || (raw.min.Some? && SafeNumber(raw.min).None?)
    || (raw.max.Some? && SafeNumber(raw.max).None?)
    || (raw.step.Some? && SafeNumber(raw.step).None?)
  }

  predicate BadRange(value: Scalar, min: Option<Scalar>, max: Option<Scalar>, step: Option<Scalar>)
    requires (min.Some? ==> min.value.Numeric()) && (max.Some? ==> max.value.Numeric())
    requires step.Some? ==> step.value.Numeric()
  {
    || min.None? || max.None? || min.value.Num() > max.value.Num()
    || (step.Some? && step.value.Num() <= 0.0)
    || (value.Numeric() && !(min.value.Num() <= value.Num() <= max.value.Num()))
  }

  // Whether the metadata is too incomplete or inconsistent to write against.
  predicate Unsafe(raw: RawField)
    requires raw.kind.Some?
  {
    var value := SafeScalar(raw.value);
    var min, max, step := SafeNumber(raw.min), SafeNumber(raw.max), SafeNumber(raw.step);
    || BadNumbers(raw) || BadLength(raw.maxLength)
    || match KindOf(raw)
       case SecretKind => false
       case BooleanKind => !value.Bool?
       case IntegerKind => !value.Int? || BadRange(value, min, max, step)
       case NumberKind => !value.Numeric() || BadRange(value, min, max, step)
       case StringKind => !value.Str?
       case SelectKind =>
         raw.options.None? || BadOptions(FirstOptions(raw)) || !Offers(Choices(FirstOptions(raw)), value)
  }

  function FirstOptions(raw: RawField): seq<RawOption> {
    if raw.options.None? then []
    else if |raw.options.value| > MAX_OPTIONS then raw.options.value[..MAX_OPTIONS] else raw.options.value
  }

  predicate Describable(raw: RawField) {
    raw.safePath && 1 <= |raw.caption| <= MAX_LABEL && raw.kind.Some?
  }

  function Sanitize(raw: RawField): Option<Field> {
    if !Describable(raw) then None
    else
      var kind := KindOf(raw);
      var secret := kind.SecretKind?;
      Some(Field(raw.path, raw.caption, kind, raw.writable && !Unsafe(raw), raw.critical, raw.reconnect,
                 if secret then Nothing else SafeScalar(raw.value),
                 secret && raw.configured, secret && raw.allowClear,
                 SafeNumber(raw.min), SafeNumber(raw.max), SafeNumber(raw.step), SafeLength(raw.maxLength),
                 if kind.SelectKind? then Choices(FirstOptions(raw)) else []))
  }

  // The public field given back as a provider would.
  function AsRaw(f: Field, looksSecret: bool): RawField {
    RawField(f.path, true, f.caption, Some(f.kind), looksSecret, f.writable, f.critical, f.reconnect,
             f.value, f.configured, f.allowClear, f.min, f.max, f.step,
             if f.maxLength.Some? then Some(Int(f.maxLength.value)) else None,
             Some(seq(|f.choices|, i requires 0 <= i < |f.choices| =>
               RawOption(f.choices[i].value, Some(f.choices[i].caption)))))
  }

  ghost predicate CleanChoices(choices: seq<Choice>) {
    && (forall c | c in choices :: SafeScalar(c.value) == c.value && !c.value.Nothing? && |c.caption| <= MAX_LABEL)
    && (forall i, j | 0 <= i < j < |choices| :: choices[i].value != choices[j].value)
  }

  lemma {:induction false} ChoicesAreClean(options: seq<RawOption>)
    ensures CleanChoices(Choices(options)) && |Choices(options)| <= |options|
  {
    if options != [] {
      ChoicesAreClean(options[..|options| - 1]);
    }
  }

  lemma CleanPrefix(choices: seq<Choice>)
    requires CleanChoices(choices) && choices != []
    ensures var n := |choices| - 1;
            && CleanChoices(choices[..n]) && !Offers(choices[..n], choices[n].value)
            && SafeScalar(choices[n].value) == choices[n].value && !choices[n].value.Nothing?
            && |choices[n].caption| <= MAX_LABEL
  {
  }

  lemma {:induction false} CleanChoicesStay(choices: seq<Choice>, options: seq<RawOption>)
    requires CleanChoices(choices) && |options| == |choices|
    requires forall i | 0 <= i < |choices| :: options[i] == RawOption(choices[i].value, Some(choices[i].caption))
    ensures Choices(options) == choices && !BadOptions(options)
  {
    if choices != [] {
      var n := |choices| - 1;
      CleanPrefix(choices);
      CleanChoicesStay(choices[..n], options[..n]);
      assert UsableOption(options[n]);
      assert choices == choices[..n] + [choices[n]];
    }
  }

  lemma NumbersStay(v: Option<Scalar>)
    ensures SafeNumber(SafeNumber(v)) == SafeNumber(v)
  {
  }

  lemma LengthStays(v: Option<Scalar>)
    ensures var n := SafeLength(v);
            n.Some? ==> 1 <= n.value <= MAX_STRING && SafeLength(Some(Int(n.value))) == n
  {
  }

  lemma OptionsStay(raw: RawField)
    requires Describable(raw)
    ensures var f := Sanitize(raw).value; var again := AsRaw(f, raw.looksSecret);
            && FirstOptions(again) == again.options.value
            && Choices(FirstOptions(again)) == f.choices && !BadOptions(FirstOptions(again))
  {
    var f := Sanitize(raw).value;
    var options := AsRaw(f, raw.looksSecret).options.value;
    ChoicesAreClean(FirstOptions(raw));
    assert |options| == |f.choices| <= MAX_OPTIONS;
    CleanChoicesStay(f.choices, options);
  }

  lemma SafeStaysSafe(raw: RawField)
    requires Describable(raw) && !Unsafe(raw)
    ensures !Unsafe(AsRaw(Sanitize(raw).value, raw.looksSecret))
  {
    var f := Sanitize(raw).value;
    var again := AsRaw(f, raw.looksSecret);
    OptionsStay(raw);
    NumbersStay(raw.min);
    NumbersStay(raw.max);
    NumbersStay(raw.step);
    LengthStays(raw.maxLength);
    assert !BadNumbers(again) && !BadLength(again.maxLength);
    assert KindOf(again) == KindOf(raw);
    assert SafeScalar(SafeScalar(raw.value)) == SafeScalar(raw.value);
  }

  /** Sanitizing what was sanitized changes nothing. */
  lemma SanitizeIsIdempotent(raw: RawField)
    requires Describable(raw)
    ensures Sanitize(AsRaw(Sanitize(raw).value, raw.looksSecret)) == Sanitize(raw)
  {
    var f := Sanitize(raw).value;
    var again := AsRaw(f, raw.looksSecret);
    OptionsStay(raw);
    NumbersStay(raw.min);
    NumbersStay(raw.max);
    NumbersStay(raw.step);
    LengthStays(raw.maxLength);
    if !Unsafe(raw) {
      SafeStaysSafe(raw);
    }
    var g := Sanitize(again).value;
    assert g.writable == f.writable;
    assert g.maxLength == f.maxLength && g.choices == f.choices;
  }

  /** A secret's stored value leaves no trace in its public field. */
  lemma SecretValueStaysOut(raw: RawField, other: Scalar)
    requires Describable(raw) && KindOf(raw).SecretKind?
    ensures Sanitize(raw) == Sanitize(raw.(value := other))
    ensures Sanitize(raw).value.value == Nothing
  {
  }

  // ---------------------------------------------------------------- validating one change

  datatype Request = Clear | Replace(text: string) | Plain(value: Scalar) | Malformed

  // The normalized value of an accepted change, and what the preview shows of it.
  datatype Change = Change(
    path: string, request: Request, before: Scalar, after: Scalar, secret: bool, critical: bool, reconnect: bool)

  function LengthLimit(f: Field): int {
    if f.maxLength.Some? then f.maxLength.value else MAX_STRING
  }

  function SecretLimit(f: Field): int {
    if f.maxLength.Some? && f.maxLength.value < MAX_SECRET then f.maxLength.value else MAX_SECRET
  }

  predicate InRange(f: Field, v: Scalar)
    requires v.Numeric()
  {
    && (f.min.Some? && f.min.value.Numeric() ==> f.min.value.Num() <= v.Num())
    && (f.max.Some? && f.max.value.Numeric() ==> v.Num() <= f.max.value.Num())
  }

  predicate AcceptsPlain(f: Field, v: Scalar) {
    match f.kind
    case BooleanKind => v.Bool?
    case IntegerKind => v.Int? && InRange(f, v)
    case NumberKind => v.Numeric() && InRange(f, v)
    case StringKind => v.Numeric() || (v.Str? && |v.s| <= LengthLimit(f))
    case SelectKind => (v.Numeric() || (v.Str? && |v.s| <= LengthLimit(f))) && Offers(f.choices, v)
    case SecretKind => false
  }

  predicate AcceptsSecret(f: Field, r: Request) {
    match r
    case Clear => f.allowClear && f.configured
    case Replace(text) => 0 < |text| <= SecretLimit(f)
    case _ => false
  }

  predicate Accepts(f: Field, r: Request) {
    if f.kind.SecretKind? then AcceptsSecret(f, r) else r.Plain? && AcceptsPlain(f, r.value)
  }

  // What the preview shows instead of a secret.
  function SecretBefore(f: Field): Scalar {
    Str(if f.configured then "Configured" else "Not configured")
  }

  function ChangeOf(f: Field, r: Request): Change
    requires Accepts(f, r)
  {
    if f.kind.SecretKind? then
      Change(f.path, r, SecretBefore(f), Str(if r.Clear? then "Will be cleared" else "Will be replaced"),
             true, f.critical, f.reconnect)
    else Change(f.path, r, f.value, r.value, false, f.critical, f.reconnect)
  }

  // An accepted change that would change something; secrets always may.
  predicate Effective(f: Field, r: Request) {
    Accepts(f, r) && (f.kind.SecretKind? || !LooselyEqual(r.value, f.value))
  }

  /** A writable field agrees with itself: its own value is accepted, and counts as no change, exactly when
      it is no longer than the field's limit and not a truth value to select. */
  lemma WritableAcceptsItsValue(raw: RawField)
    requires Describable(raw) && Sanitize(raw).value.writable && !KindOf(raw).SecretKind?
    ensures var f := Sanitize(raw).value;
            && (Accepts(f, Plain(f.value)) <==>
                  (f.value.Str? ==> |f.value.s| <= LengthLimit(f)) && !(f.kind.SelectKind? && f.value.Bool?))
            && !Effective(f, Plain(f.value))
  {
    ChoicesAreClean(FirstOptions(raw));
  }

  /** Accepted changes fit: a writable field that is given a value it accepts is again described as
      writable, with that value, unless a text field was given a number. */
  lemma AcceptedValueFits(raw: RawField, v: Scalar)
    requires Describable(raw) && Sanitize(raw).value.writable && !KindOf(raw).SecretKind?
    requires Accepts(Sanitize(raw).value, Plain(v)) && SafeScalar(v) == v
    ensures var g := Sanitize(raw.(value := v)).value;
            g.value == v && (g.writable <==> !(g.kind.StringKind? && v.Numeric()))
  {
  }

  predicate RefusesItself(raw: RawField) {
    && Describable(raw) && !KindOf(raw).SecretKind? && Sanitize(raw).value.writable
    && !Accepts(Sanitize(raw).value, Plain(Sanitize(raw).value.value))
  }

  // An accepted change after which the field can no longer be written.
  predicate LocksItself(raw: RawField, v: Scalar) {
    && Describable(raw) && !KindOf(raw).SecretKind? && Sanitize(raw).value.writable
    && Accepts(Sanitize(raw).value, Plain(v)) && SafeScalar(v) == v
    && !Sanitize(raw.(value := v)).value.writable
  }

  // A writable text of four characters where three are allowed.
  const LONG_TEXT := RawField("name", true, "Name", Some(StringKind), false, true, false, false,
                              Str("abcd"), false, false, None, None, None, Some(Int(3)), None)

  // A writable choice whose only option, and current value, is a truth value.
  const TRUTH_SELECT := RawField("relay", true, "Relay", Some(SelectKind), false, true, false, false,
                                 Bool(true), false, false, None, None, None, None,
                                 Some([RawOption(Bool(true), Some("On"))]))

  /** Both failures occur: a text and a choice that are writable and refuse their own value, and a text
      that accepts a number and is read-only afterwards. */
  lemma WritableMayRefuseItself()
    ensures exists raw: RawField :: raw.kind == Some(StringKind) && RefusesItself(raw)
    ensures exists raw: RawField :: raw.kind == Some(SelectKind) && RefusesItself(raw)
    ensures exists raw: RawField, v :: raw.kind == Some(StringKind) && LocksItself(raw, v)
  {
    var option := RawOption(Bool(true), Some("On"));
    assert TRUTH_SELECT.options.value[..0] == [] && TRUTH_SELECT.options.value[0] == option;
    assert Choices([]) == [] && UsableOption(option);
    assert Choices([option]) == [Choice(Bool(true), "On")];
    assert Choices([option])[0].value == Bool(true) && Offers(Choices([option]), Bool(true));
    assert !Unsafe(TRUTH_SELECT);
    assert RefusesItself(LONG_TEXT) && RefusesItself(TRUTH_SELECT) && LocksItself(LONG_TEXT, Int(1));
  }

  /** The preview of a new secret does not depend on it. */
  lemma SecretIsNotShown(f: Field, a: string, b: string)
    requires f.kind.SecretKind? && Accepts(f, Replace(a)) && Accepts(f, Replace(b))
    ensures ChangeOf(f, Replace(a)).(request := Clear) == ChangeOf(f, Replace(b)).(request := Clear)
  {
  }

  // ---------------------------------------------------------------- validating a plan

  type Fields = map<string, Field>

  predicate Allowed(fields: Fields, requests: map<string, Request>) {
    forall p | p in requests :: p in fields && fields[p].writable && Accepts(fields[p], requests[p])
  }

  function EffectivePaths(fields: Fields, requests: map<string, Request>): set<string> {
    set p | p in requests && p in fields && Effective(fields[p], requests[p])
  }

  // Critical changes last, paths in order within each part.
  predicate Before(fields: Fields, a: string, b: string) {
    var x, y := a in fields && fields[a].critical, b in fields && fields[b].critical;
    if x != y then !x else TextLess(a, b)
  }

  lemma PlanOrder(fields: Fields, paths: set<string>)
    ensures StrictOrder((a, b) => Before(fields, a, b), paths)
  {
    TextOrder(paths);
  }

  // The changes of a plan: one for each effective path, in plan order.
  ghost predicate IsPlan(fields: Fields, requests: map<string, Request>, plan: seq<Change>) {
    && (forall i | 0 <= i < |plan| ::
          var p := plan[i].path;
          p in EffectivePaths(fields, requests) && fields[p].path == p && plan[i] == ChangeOf(fields[p], requests[p]))
    && (forall p | p in EffectivePaths(fields, requests) :: exists i :: 0 <= i < |plan| && plan[i].path == p)
    && (forall i, j | 0 <= i < j < |plan| :: Before(fields, plan[i].path, plan[j].path))
  }

  ghost predicate Keyed(fields: Fields) {
    forall p | p in fields :: fields[p].path == p
  }

  /** A plan is made exactly when every change is to a writable field that accepts it and at least one has
      an effect; it holds precisely the effective changes, the critical ones last. */
  method ValidateAgainstFields(fields: Fields, requests: map<string, Request>) returns (plan: Option<seq<Change>>)
    requires Keyed(fields)
    ensures plan.Some? <==> Allowed(fields, requests) && EffectivePaths(fields, requests) != {}
    ensures plan.Some? ==> IsPlan(fields, requests, plan.value)
  {
    var rest := requests.Keys;
    var effective: set<string> := {};
    while rest != {}
      invariant rest <= requests.Keys
      invariant forall p | p in requests && p !in rest ::
                  p in fields && fields[p].writable && Accepts(fields[p], requests[p])
      invariant effective == EffectivePaths(fields, requests) - rest
      decreases rest
    {
      var p :| p in rest;
      rest := rest - {p};
      if p !in fields || !fields[p].writable || !Accepts(fields[p], requests[p]) {
        return None;
      }
      if fields[p].kind.SecretKind? || !LooselyEqual(requests[p].value, fields[p].value) {
        effective := effective + {p};
      }
    }
    if effective == {} {
      return None;
    }
    PlanOrder(fields, effective);
    var order := Sort(effective, (a, b) => Before(fields, a, b));
    var changes := ChangesOf(fields, requests, order);
    return Some(changes);
  }

  method ChangesOf(fields: Fields, requests: map<string, Request>, order: seq<string>) returns (changes: seq<Change>)
    requires Keyed(fields) && Members(order) == EffectivePaths(fields, requests)
    requires SortedBy((a, b) => Before(fields, a, b), order)
    ensures IsPlan(fields, requests, changes)
  {
    changes := [];
    for i := 0 to |order|
      invariant |changes| == i
      invariant forall k | 0 <= k < i ::
                  order[k] in EffectivePaths(fields, requests)
                  && changes[k] == ChangeOf(fields[order[k]], requests[order[k]])
    {
      assert order[i] in Members(order);
      changes := changes + [ChangeOf(fields[order[i]], requests[order[i]])];
    }
    forall p | p in EffectivePaths(fields, requests)
      ensures exists i :: 0 <= i < |changes| && changes[i].path == p
    {
      assert p in Members(order);
      var i :| 0 <= i < |order| && order[i] == p;
      assert changes[i].path == p;
    }
  }

  // ---------------------------------------------------------------- the result of an apply

  // What the live fields show after an apply: a plain value, or whether a secret is configured.
  datatype Shown = Shown(value: Scalar, configured: Option<bool>)

  datatype Status = Verified | PartiallyVerified | AppliedUnverified

  predicate ReadBackMatches(after: map<string, Shown>, path: string, r: Request) {
    path in after &&
    match r
    case Plain(v) => LooselyEqual(after[path].value, v)
    case Replace(_) => after[path].configured == Some(true)
    case _ => after[path].configured == Some(false)
  }

  // The adapter's own list, when it gives one, is authoritative; otherwise the fields read afterwards.
  function VerifiedPaths(changes: map<string, Request>, backend: Option<seq<string>>, after: Option<map<string,
                         Shown>>): set<string> {
    if backend.Some? then set p | p in backend.value && p in changes
    else if after.Some? then set p | p in changes && ReadBackMatches(after.value, p, changes[p])
    else {}
  }

  /** Every changed path is reported once, as verified or as not; the status says verified only when
      nothing is left, and an adapter that withholds a path is never overruled by what is read. */
  method VerifiedResult(changes: map<string, Request>, backend: Option<seq<string>>, after: Option<map<string, Shown>>)
    returns (verified: set<string>, unverified: set<string>, status: Status)
    ensures verified == VerifiedPaths(changes, backend, after)
    ensures verified + unverified == changes.Keys && verified !! unverified
    ensures status.Verified? <==> verified == changes.Keys
    ensures status.AppliedUnverified? <==> verified == {} && changes != map[]
    ensures backend.Some? ==> forall p | p in changes && p !in backend.value :: p in unverified
  {
    verified := if backend.Some? then set p | p in backend.value && p in changes else {};
    if after.Some? && backend.None? {
      var rest := changes.Keys;
      while rest != {}
        invariant rest <= changes.Keys
        invariant verified == (set p | p in changes && p !in rest && ReadBackMatches(after.value, p, changes[p]))
        decreases rest
      {
        var p :| p in rest;
        rest := rest - {p};
        if ReadBackMatches(after.value, p, changes[p]) {
          verified := verified + {p};
        }
      }
    }
    unverified := changes.Keys - verified;
    status := if unverified == {} then Verified else if verified != {} then PartiallyVerified else AppliedUnverified;
  }
}
