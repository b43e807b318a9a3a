/**
The pairing manager's in-process proof of the Bluetooth bonds it created.

Addresses, adapter names and BlueZ owner names stand for values that have already passed the
manager's syntactic checks; a Device1 path is split into its hci name and its device suffix.
*/
module BondLedger {
  import opened Basics

  datatype DevicePath = DevicePath(hci: string, suffix: string)

  datatype Bond = Bond(
    address: string, adapter: string, controller: string,
    path: Option<DevicePath>, owner: Option<string>)

  // Controller address, device address.
  type Key = (string, string)

  datatype Ledger = Ledger(bonds: map<Key, string>, paths: map<Key, DevicePath>, owners: map<Key, string>)

  const EMPTY := Ledger(map[], map[], map[])

  function KeyOf(b: Bond): Key {
    (b.controller, b.address)
  }

  // A retained path must lie beneath the adapter it is retained with.
  predicate WellFormed(b: Bond) {
    b.path.Some? ==> b.path.value.hci == b.adapter
  }

  function BondOf(l: Ledger, k: Key): Bond
    requires k in l.bonds
  {
    Bond(k.1, l.bonds[k], k.0,
         if k in l.paths then Some(l.paths[k]) else None,
         if k in l.owners then Some(l.owners[k]) else None)
  }

  // Same stable controller, and the same address or the same Device1 suffix (whatever the hci number).
  predicate SameDevice(a: Bond, b: Bond) {
    && a.controller == b.controller
    && (a.address == b.address
        || (a.path.Some? && b.path.Some? && a.path.value.suffix == b.path.value.suffix))
  }

  function Matching(l: Ledger, candidate: Bond): set<Key> {
    set k | k in l.bonds && SameDevice(BondOf(l, k), candidate)
  }

  predicate Contains(l: Ledger, b: Bond) {
    KeyOf(b) in l.bonds && BondOf(l, KeyOf(b)) == b
  }

  /** No orphan metadata, and no two retained proofs for one device. */
  ghost predicate Sound(l: Ledger) {
    && l.paths.Keys <= l.bonds.Keys
    && l.owners.Keys <= l.bonds.Keys
    && (forall k | k in l.bonds :: WellFormed(BondOf(l, k)))
    && (forall j, k | j in l.bonds && k in l.bonds && j != k :: !SameDevice(BondOf(l, j), BondOf(l, k)))
  }

  function Release(l: Ledger, keys: set<Key>): Ledger {
    Ledger(l.bonds - keys, l.paths - keys, l.owners - keys)
  }

  function Insert(l: Ledger, b: Bond): Ledger {
    Ledger(l.bonds[KeyOf(b) := b.adapter],
           if b.path.Some? then l.paths[KeyOf(b) := b.path.value] else l.paths,
           if b.owner.Some? then l.owners[KeyOf(b) := b.owner.value] else l.owners)
  }

  function Record(l: Ledger, b: Bond): Ledger {
    Insert(Release(l, Matching(l, b)), b)
  }

  // Every pending proof belongs to a BlueZ generation that is known to have ended.
  predicate AllFromEndedDaemon(l: Ledger, keys: set<Key>, owner: Option<string>) {
    owner.Some? && forall k | k in keys :: k in l.owners && l.owners[k] != owner.value
  }

  // Whether a new pairing may go ahead, and the ledger it then runs against.
  function Admit(l: Ledger, candidate: Bond): (Ledger, bool) {
    var pending := Matching(l, candidate);
    if pending == {} then (l, true)
    else if AllFromEndedDaemon(l, pending, candidate.owner) then (Release(l, pending), true)
    else (l, false)
  }

  // ---------------------------------------------------------------- in terms of the dictionaries

  // The retained proof of this key may be of the candidate's device: the same controller, and the same address or the
  // same Device1 suffix.
  predicate Shares(l: Ledger, k: Key, c: Bond) {
    && k in l.bonds && k.0 == c.controller
    && (k.1 == c.address || (k in l.paths && c.path.Some? && l.paths[k].suffix == c.path.value.suffix))
  }

  lemma MatchingMeans(l: Ledger, c: Bond)
    ensures forall k :: k in Matching(l, c) <==> Shares(l, k, c)
  {
  }

  // No earlier transaction that may still be alive controls the candidate's device.
  ghost predicate Unclaimed(l: Ledger, c: Bond) {
    || (forall k :: !Shares(l, k, c))
    || (c.owner.Some? && forall k | Shares(l, k, c) :: k in l.owners && l.owners[k] != c.owner.value)
  }

  /** A candidate is admitted exactly when nothing retained shares its device, or all that does is of BlueZ generations
      that have ended; only that is released. */
  lemma AdmittedExactly(l: Ledger, c: Bond)
    ensures Admit(l, c).1 <==> Unclaimed(l, c)
    ensures !Admit(l, c).1 ==> Admit(l, c).0 == l
    ensures Admit(l, c).1 ==> forall k :: k in Admit(l, c).0.bonds <==> k in l.bonds && !Shares(l, k, c)
  {
    MatchingMeans(l, c);
  }

  // The three dictionaries hold exactly this bond under its key.
  predicate Holds(l: Ledger, b: Bond) {
    var k := (b.controller, b.address);
    && k in l.bonds && l.bonds[k] == b.adapter
    && (if b.path.Some? then k in l.paths && l.paths[k] == b.path.value else k !in l.paths)
    && (if b.owner.Some? then k in l.owners && l.owners[k] == b.owner.value else k !in l.owners)
  }

  lemma ContainsMeans(l: Ledger, b: Bond)
    ensures Contains(l, b) <==> Holds(l, b)
  {
  }

  /** A sound ledger: what is known of a bond belongs to one, a path lies beneath its adapter, and beneath one
      controller no two bonds have the same Device1 suffix. */
  lemma SoundMeans(l: Ledger)
    ensures Sound(l) <==>
              && (forall k | k in l.paths || k in l.owners :: k in l.bonds)
              && (forall k | k in l.paths :: l.paths[k].hci == l.bonds[k])
              && (forall j, k | j in l.paths && k in l.paths && j != k && j.0 == k.0 ::
                    l.paths[j].suffix != l.paths[k].suffix)
  {
    if Sound(l) {
      assert forall j, k | j in l.bonds && k in l.bonds && j != k :: !SameDevice(BondOf(l, j), BondOf(l, k));
      assert forall k | k in l.bonds :: WellFormed(BondOf(l, k));
    }
  }

  /** Releasing removes the keys from all three dictionaries; recording does so for the keys of the same device, and
      then the bond is held. */
  lemma ReleaseMeans(l: Ledger, keys: set<Key>)
    ensures var r := Release(l, keys);
            && (forall k :: k in r.bonds <==> k in l.bonds && k !in keys)
            && (forall k :: k in r.paths <==> k in l.paths && k !in keys)
            && (forall k :: k in r.owners <==> k in l.owners && k !in keys)
            && (forall k | k in r.bonds :: r.bonds[k] == l.bonds[k])
            && (forall k | k in r.paths :: r.paths[k] == l.paths[k])
            && (forall k | k in r.owners :: r.owners[k] == l.owners[k])
  {
  }

  lemma ReleaseKeepsSound(l: Ledger, keys: set<Key>)
    requires Sound(l)
    ensures Sound(Release(l, keys))
    ensures forall c :: Matching(Release(l, keys), c) == Matching(l, c) - keys
  {
    var r := Release(l, keys);
    assert forall k | k in r.bonds :: BondOf(r, k) == BondOf(l, k);
  }

  // An unmatched bond is entered as it is, beside all others.
  lemma InsertAdds(l: Ledger, b: Bond)
    requires Sound(l) && Matching(l, b) == {}
    ensures Contains(Insert(l, b), b)
    ensures forall k | k in l.bonds ::
              k != KeyOf(b) && BondOf(Insert(l, b), k) == BondOf(l, k) && !SameDevice(BondOf(l, k), b)
  {
    var r := Insert(l, b);
    forall k | k in l.bonds
      ensures k != KeyOf(b) && BondOf(r, k) == BondOf(l, k) && !SameDevice(BondOf(l, k), b)
    {
      assert k !in Matching(l, b);
    }
    assert KeyOf(b) !in l.bonds;
  }

  lemma InsertKeepsSound(l: Ledger, b: Bond)
    requires Sound(l) && WellFormed(b) && Matching(l, b) == {}
    ensures Sound(Insert(l, b))
    ensures Contains(Insert(l, b), b)
    ensures forall k | k in l.bonds :: k != KeyOf(b) && BondOf(Insert(l, b), k) == BondOf(l, k)
    ensures Matching(Insert(l, b), b) == {KeyOf(b)}
  {
    var r := Insert(l, b);
    InsertAdds(l, b);
    assert r.bonds.Keys == l.bonds.Keys + {KeyOf(b)};
    forall j, k | j in r.bonds && k in r.bonds && j != k
      ensures !SameDevice(BondOf(r, j), BondOf(r, k))
    {
      if j != KeyOf(b) && k != KeyOf(b) {
        assert !SameDevice(BondOf(l, j), BondOf(l, k));
      }
    }
  }

  /** Recording keeps the ledger sound, holds exactly the new proof for the device, and drops only
      proofs of that same device. */
  lemma RecordKeepsSound(l: Ledger, b: Bond)
    requires Sound(l) && WellFormed(b)
    ensures Sound(Record(l, b))
    ensures Contains(Record(l, b), b)
    ensures Matching(Record(l, b), b) == {KeyOf(b)}
    ensures forall k | k in l.bonds && k !in Matching(l, b) ::
              k in Record(l, b).bonds && BondOf(Record(l, b), k) == BondOf(l, k)
    ensures Record(l, b).bonds.Keys == l.bonds.Keys - Matching(l, b) + {KeyOf(b)}
  {
    var cleared := Release(l, Matching(l, b));
    ReleaseKeepsSound(l, Matching(l, b));
    InsertKeepsSound(cleared, b);
    forall k | k in l.bonds && k !in Matching(l, b)
      ensures k in Record(l, b).bonds && BondOf(Record(l, b), k) == BondOf(l, k)
    {
      assert k in cleared.bonds && BondOf(cleared, k) == BondOf(l, k);
    }
  }

  lemma RecordMeans(l: Ledger, b: Bond)
    requires Sound(l) && WellFormed(b)
    ensures var r := Record(l, b);
            && Holds(r, b)
            && forall k | k != (b.controller, b.address) ::
                 && (k in r.bonds <==> k in l.bonds && !Shares(l, k, b))
                 && (k in r.bonds ==> BondOf(r, k) == BondOf(l, k))
  {
    MatchingMeans(l, b);
    RecordKeepsSound(l, b);
    ContainsMeans(Record(l, b), b);
  }

  /** A pairing that is admitted shares its device with no retained proof; a refused one changes nothing. */
  lemma AdmittedIsUnambiguous(l: Ledger, c: Bond)
    requires Sound(l)
    ensures Sound(Admit(l, c).0)
    ensures Admit(l, c).1 ==> Matching(Admit(l, c).0, c) == {}
    ensures !Admit(l, c).1 ==> Admit(l, c).0 == l && Matching(l, c) != {}
    ensures forall k | k in l.bonds && k !in Admit(l, c).0.bonds ::
              k in l.owners && c.owner.Some? && l.owners[k] != c.owner.value && SameDevice(BondOf(l, k), c)
  {
    ReleaseKeepsSound(l, Matching(l, c));
  }

  datatype Operation =
    | Recorded(bond: Bond)
    | Checked(candidate: Bond)
    | ReleasedExact(key: Key, adapter: string)
    | Forgotten(key: Key)

  function Apply(l: Ledger, op: Operation): Ledger {
    match op
    case Recorded(b) => if WellFormed(b) then Record(l, b) else l
    case Checked(c) => if WellFormed(c) then Admit(l, c).0 else l
    case ReleasedExact(k, adapter) => if k in l.bonds && l.bonds[k] == adapter then Release(l, {k}) else l
    case Forgotten(k) => Release(l, {k})
  }

  function ApplyAll(l: Ledger, ops: seq<Operation>): Ledger
    decreases |ops|
  {
    if ops == [] then l else ApplyAll(Apply(l, ops[0]), ops[1..])
  }

  /** Every reachable manager state is sound. */
  lemma {:induction false} ReachableIsSound(l: Ledger, ops: seq<Operation>)
    requires Sound(l)
    ensures Sound(ApplyAll(l, ops))
    decreases |ops|
  {
    if ops != [] {
      match ops[0] {
        case Recorded(b) => if WellFormed(b) { RecordKeepsSound(l, b); }
        case Checked(c) => AdmittedIsUnambiguous(l, c);
        case ReleasedExact(k, adapter) => ReleaseKeepsSound(l, {k});
        case Forgotten(k) => ReleaseKeepsSound(l, {k});
      }
      ReachableIsSound(Apply(l, ops[0]), ops[1..]);
    }
  }

  // The bonds are the retained proofs of exactly these keys.
  ghost predicate Lists(l: Ledger, keys: set<Key>, bonds: seq<Bond>) {
    && (forall k | k in keys :: k in l.bonds && BondOf(l, k) in bonds)
    && (forall b | b in bonds :: KeyOf(b) in keys && KeyOf(b) in l.bonds && b == BondOf(l, KeyOf(b)))
  }

  datatype Refusal = Unavailable | OwnershipPending

  /** The manager's three dictionaries, updated in place. */
  class PairingManager {
    var createdBonds: map<Key, string>
    var createdBondPaths: map<Key, DevicePath>
    var createdBondOwners: map<Key, string>

    ghost function View(): Ledger
      reads this
    {
      Ledger(createdBonds, createdBondPaths, createdBondOwners)
    }

    ghost predicate Valid()
      reads this
    {
      Sound(View())
    }

    constructor ()
      ensures Valid() && View() == EMPTY
    {
      createdBonds, createdBondPaths, createdBondOwners := map[], map[], map[];
    }

    function BondForKey(key: Key): (b: Bond)
      reads this
      requires key in createdBonds
      ensures b == BondOf(View(), key)
    {
      Bond(key.1, createdBonds[key], key.0,
           if key in createdBondPaths then Some(createdBondPaths[key]) else None,
           if key in createdBondOwners then Some(createdBondOwners[key]) else None)
    }

    // The order of the matches is not modelled.
    method MatchingCreatedBonds(candidate: Bond) returns (matches: seq<Bond>)
      ensures Lists(View(), Matching(View(), candidate), matches)
      ensures forall b :: b in matches <==> Holds(View(), b) && Shares(View(), (b.controller, b.address), candidate)
    {
      matches := [];
      var rest := createdBonds.Keys;
      while rest != {}
        invariant rest <= createdBonds.Keys
        invariant Lists(View(), Matching(View(), candidate) - rest, matches)
        decreases rest
      {
        var key :| key in rest;
        rest := rest - {key};
        var stored := BondForKey(key);
        var samePath := stored.path.Some? && candidate.path.Some?
                        && stored.path.value.suffix == candidate.path.value.suffix;
        if key.0 == candidate.controller && (key.1 == candidate.address || samePath) {
          assert stored == BondOf(View(), key) && SameDevice(stored, candidate);
          matches := matches + [stored];
        }
      }
      assert Matching(View(), candidate) - rest == Matching(View(), candidate);
      ListedAreHeld(View(), candidate, matches);
    }

    method ReleaseKey(key: Key)
      modifies this
      ensures View() == Release(old(View()), {key})
    {
      createdBonds := createdBonds - {key};
      createdBondPaths := createdBondPaths - {key};
      createdBondOwners := createdBondOwners - {key};
    }

    method ReleaseEach(bonds: seq<Bond>)
      modifies this
      ensures View() == Release(old(View()), set b | b in bonds :: KeyOf(b))
    {
      ghost var gone: set<Key> := {};
      for i := 0 to |bonds|
        invariant gone == set b | b in bonds[..i] :: KeyOf(b)
        invariant View() == Release(old(View()), gone)
      {
        ReleaseKey(KeyOf(bonds[i]));
        assert bonds[..i + 1] == bonds[..i] + [bonds[i]];
        gone := gone + {KeyOf(bonds[i])};
      }
      assert bonds[..|bonds|] == bonds;
    }

    method RecordCreatedBond(bond: Bond) returns (refusal: Option<Refusal>, retired: seq<Bond>)
      requires Valid()
      modifies this
      ensures Valid() && View() == Apply(old(View()), Recorded(bond))
      ensures refusal == if WellFormed(bond) then None else Some(Unavailable)
      ensures refusal.None? <==> (bond.path.Some? ==> bond.path.value.hci == bond.adapter)
      ensures View() == if refusal.None? then Record(old(View()), bond) else old(View())
      ensures WellFormed(bond) ==> Lists(old(View()), Matching(old(View()), bond), retired)
    {
      if bond.path.Some? && bond.path.value.hci != bond.adapter {
        return Some(Unavailable), [];
      }
      refusal := None;
      retired := MatchingCreatedBonds(bond);
      ListedKeys(View(), Matching(View(), bond), retired);
      RecordKeepsSound(View(), bond);
      ReleaseEach(retired);
      var key := (bond.controller, bond.address);
      createdBonds := createdBonds[key := bond.adapter];
      if bond.path.Some? {
        createdBondPaths := createdBondPaths[key := bond.path.value];
      }
      if bond.owner.Some? {
        createdBondOwners := createdBondOwners[key := bond.owner.value];
      }
    }

    method EnsureCandidateUnambiguous(candidate: Bond) returns (refusal: Option<Refusal>)
      requires Valid()
      modifies this
      ensures Valid() && View() == Apply(old(View()), Checked(candidate))
      ensures refusal == None ==> Matching(View(), candidate) == {}
      ensures refusal == (if !WellFormed(candidate) then Some(Unavailable)
                          else if Admit(old(View()), candidate).1 then None
                          else Some(OwnershipPending))
      ensures refusal == Some(Unavailable) <==> candidate.path.Some? && candidate.path.value.hci != candidate.adapter
      ensures View() == if refusal.None? then Admit(old(View()), candidate).0 else old(View())
    {
      if candidate.path.Some? && candidate.path.value.hci != candidate.adapter {
        return Some(Unavailable);
      }
      ghost var before := View();
      AdmittedIsUnambiguous(before, candidate);
      var pending := MatchingCreatedBonds(candidate);
      ListedKeys(before, Matching(before, candidate), pending);
      if pending == [] {
        return None;
      }
      ListedOwners(before, Matching(before, candidate), pending, candidate.owner);
      var ended := candidate.owner.Some?
                   && forall b | b in pending :: b.owner.Some? && b.owner != candidate.owner;
      if ended {
        ReleaseEach(pending);
        assert View() == Admit(before, candidate).0;
        return None;
      }
      return Some(OwnershipPending);
    }

    method ReleaseCreated(address: string, adapter: string, controller: string) returns (released: bool)
      requires Valid()
      modifies this
      ensures Valid() && View() == Apply(old(View()), ReleasedExact((controller, address), adapter))
      ensures released == ((controller, address) in old(createdBonds)
                           && old(createdBonds)[(controller, address)] == adapter)
      ensures View() == if released then Release(old(View()), {(controller, address)}) else old(View())
    {
      var key := (controller, address);
      if key !in createdBonds || createdBonds[key] != adapter {
        return false;
      }
      ReleaseKeepsSound(View(), {key});
      ReleaseKey(key);
      return true;
    }
  }

  lemma ListedAreHeld(l: Ledger, c: Bond, listed: seq<Bond>)
    requires Lists(l, Matching(l, c), listed)
    ensures forall b :: b in listed <==> Holds(l, b) && Shares(l, (b.controller, b.address), c)
  {
    MatchingMeans(l, c);
    forall b
      ensures b in listed <==> Holds(l, b) && Shares(l, KeyOf(b), c)
    {
      ContainsMeans(l, b);
    }
  }

  lemma ListedKeys(l: Ledger, keys: set<Key>, listed: seq<Bond>)
    requires Lists(l, keys, listed)
    ensures (set b | b in listed :: KeyOf(b)) == keys
    ensures (listed == []) == (keys == {})
  {
    forall k | k in keys
      ensures k in (set b | b in listed :: KeyOf(b))
    {
      assert BondOf(l, k) in listed && KeyOf(BondOf(l, k)) == k;
    }
    if listed != [] {
      assert KeyOf(listed[0]) in keys;
    }
  }

  lemma ListedOwners(l: Ledger, keys: set<Key>, listed: seq<Bond>, owner: Option<string>)
    requires Sound(l) && Lists(l, keys, listed)
    ensures (owner.Some? && forall b | b in listed :: b.owner.Some? && b.owner != owner)
            == AllFromEndedDaemon(l, keys, owner)
  {
  }
}
