/**
Which private secret states a settings revision accepts, in terms of characters, path parts and sizes.
*/
module SecretRules {
  import opened Basics
  import opened SecretState

  predicate IsWordStart(c: char) {
    c in "abcdefghijklmnopqrstuvwxyz0123456789"
  }

  // A part of a dotted path begins at i and has the length of w.
  predicate PartAt(p: Path, i: nat, w: string) {
    && i + |w| <= |p| && p[i..i + |w|] == w
    && (i == 0 || p[i - 1] == '.') && (i + |w| == |p| || p[i + |w|] == '.')
  }

  lemma FirstPart(p: Path, w: string)
    requires '.' !in w && p != "" && p[0] != '.'
    ensures PartAt(p, 0, w) <==> w != "" && w[0] == p[0] && PartAt(p[1..], 0, w[1..])
  {
    if w != "" && |w| <= |p| {
      assert p[0..|w|] == [p[0]] + p[1..][0..|w| - 1];
      assert w == [w[0]] + w[1..];
    }
  }

  lemma LaterPart(p: Path, w: string, i: nat)
    requires p != "" && i >= 1
    ensures i >= 2 || p[0] == '.' ==> (PartAt(p, i, w) <==> PartAt(p[1..], i - 1, w))
    ensures i == 1 && p[0] != '.' ==> !PartAt(p, i, w)
  {
    var q := p[1..];
    if i + |w| <= |p| {
      assert forall k | i <= k < |p| :: q[k - 1] == p[k];
      assert p[i..i + |w|] == q[i - 1..i - 1 + |w|];
    }
  }

  lemma {:induction false} PartsExactly(p: Path, w: string)
    requires '.' !in w
    ensures PathParts(p) != []
    ensures PathParts(p)[0] == w <==> PartAt(p, 0, w)
    ensures w in PathParts(p)[1..] <==> exists i: nat :: i >= 1 && PartAt(p, i, w)
  {
    if p == "" {
      assert PathParts(p) == [""] && PathParts(p)[1..] == [];
    } else {
      PartsExactly(p[1..], w);
      if p[0] == '.' {
        AfterDot(p, w);
      } else {
        if w != "" {
          PartsExactly(p[1..], w[1..]);
        }
        AfterLetter(p, w);
      }
    }
  }

  lemma AfterDot(p: Path, w: string)
    requires '.' !in w && p != "" && p[0] == '.' && PathParts(p[1..]) != []
    requires PathParts(p[1..])[0] == w <==> PartAt(p[1..], 0, w)
    requires w in PathParts(p[1..])[1..] <==> exists i: nat :: i >= 1 && PartAt(p[1..], i, w)
    ensures PathParts(p)[0] == w <==> PartAt(p, 0, w)
    ensures w in PathParts(p)[1..] <==> exists i: nat :: i >= 1 && PartAt(p, i, w)
  {
    var rest := PathParts(p[1..]);
    assert PathParts(p)[1..] == rest && rest == [rest[0]] + rest[1..];
    assert w in rest <==> w == rest[0] || w in rest[1..];
    assert w != "" ==> w[0] in w;
    LaterPart(p, w, 1);
    forall i: nat | i >= 1
      ensures PartAt(p, i, w) <==> PartAt(p[1..], i - 1, w)
    {
      LaterPart(p, w, i);
    }
    if i: nat :| i >= 1 && PartAt(p[1..], i, w) {
      assert PartAt(p, i + 1, w);
    }
  }

  lemma AfterLetter(p: Path, w: string)
    requires '.' !in w && p != "" && p[0] != '.' && PathParts(p[1..]) != []
    requires w != "" ==> (PathParts(p[1..])[0] == w[1..] <==> PartAt(p[1..], 0, w[1..]))
    requires w in PathParts(p[1..])[1..] <==> exists i: nat :: i >= 1 && PartAt(p[1..], i, w)
    ensures PathParts(p) != []
    ensures PathParts(p)[0] == w <==> PartAt(p, 0, w)
    ensures w in PathParts(p)[1..] <==> exists i: nat :: i >= 1 && PartAt(p, i, w)
  {
    var rest := PathParts(p[1..]);
    assert PathParts(p) == [[p[0]] + rest[0]] + rest[1..];
    FirstPart(p, w);
    if w != "" {
      assert w == [w[0]] + w[1..];
    }
    forall i: nat | i >= 2
      ensures PartAt(p, i, w) <==> PartAt(p[1..], i - 1, w)
    {
      LaterPart(p, w, i);
    }
    if i: nat :| i >= 1 && PartAt(p[1..], i, w) {
      assert PartAt(p, i + 1, w);
    }
  }

  ghost predicate HasPart(p: Path, w: string) {
    exists i: nat :: PartAt(p, i, w)
  }

  lemma PartIsListed(p: Path, w: string)
    requires '.' !in w
    ensures w in PathParts(p) <==> HasPart(p, w)
  {
    PartsExactly(p, w);
    var parts := PathParts(p);
    assert parts == [parts[0]] + parts[1..];
    if i: nat :| PartAt(p, i, w) {
      assert i == 0 || i >= 1;
    }
  }

  /** 1 to 128 characters, lower-case letters, digits, underscores, dots and hyphens, the first of them a letter or
      digit, and none of the dotted parts one of the three that would reach into an object. */
  ghost predicate IsSafePath(p: Path) {
    && 1 <= |p| <= 128 && IsWordStart(p[0])
    && (forall c | c in p :: IsWordStart(c) || c in "_.-")
    && !HasPart(p, "__proto__") && !HasPart(p, "prototype") && !HasPart(p, "constructor")
  }

  lemma SafePathExactly(p: Path)
    ensures SafePath(p) <==> IsSafePath(p)
  {
    WordStarts();
    PartIsListed(p, "__proto__");
    PartIsListed(p, "prototype");
    PartIsListed(p, "constructor");
  }

  lemma WordStarts()
    ensures forall c :: PathStart(c) <==> IsWordStart(c)
  {
  }

  lemma {:induction false} DecimalIsShort(n: nat, digits: nat, bound: nat)
    requires digits >= 1 && n < bound && bound == Power10(digits)
    ensures |Decimal(n)| <= digits
    decreases digits
  {
    if digits > 1 && n >= 10 {
      DecimalIsShort(n / 10, digits - 1, Power10(digits - 1));
    }
  }

  function Power10(k: nat): nat {
    if k == 0 then 1 else 10 * Power10(k - 1)
  }

  /** Nothing, a truth value, an integer of at most 64 bits, or text or bytes of at most 2048 bytes. */
  predicate IsSmall(v: Value) {
    match v
    case Nothing => true
    case Boolean(_) => true
    case Number(i) => -18446744073709551616 < i < 18446744073709551616
    case Text(utf8) => |utf8| <= 2048
    case Blob(bytes) => |bytes| <= 2048
    case Unsupported => false
  }

  lemma EncodableExactly(v: Value)
    ensures Encodable(v) <==> IsSmall(v)
  {
    if v.Number? && IsSmall(v) {
      TwentyDigits();
      DecimalIsShort(if v.value < 0 then -v.value else v.value, 20, Power10(20));
    }
  }

  lemma TwentyDigits()
    ensures Power10(20) >= 18446744073709551616
  {
    assert Power10(5) == 100000;
    assert Power10(10) == 100000 * Power10(5);
    assert Power10(15) == 100000 * Power10(10);
    assert Power10(20) == 100000 * Power10(15);
  }

  /** The accepted states: at most 384 values, each small and at a safe path of a secret field. */
  lemma AcceptedExactly(raw: State, secretPaths: set<Path>)
    ensures Accepted(raw, secretPaths) <==>
              |raw| <= 384 && forall p | p in raw :: p in secretPaths && IsSafePath(p) && IsSmall(raw[p])
  {
    forall p | p in raw
      ensures SafePath(p) <==> IsSafePath(p)
      ensures Encodable(raw[p]) <==> IsSmall(raw[p])
    {
      SafePathExactly(p);
      EncodableExactly(raw[p]);
    }
  }
}
