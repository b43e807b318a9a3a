/**
Advanced edits of the gateway list: real bond ownership is preserved, and forged or orphaned bond
metadata is refused.
*/
module BondOwnership {
  import opened Basics

  // A configured address: its spelling, and the address it normalizes to, if any.
  datatype Address = Valid(mac: string, spelling: string) | Invalid(spelling: string)

  // A configured adapter name; only hci names with digits are accepted.
  datatype Adapter = Hci(digits: string) | OtherName(text: string)

  // The managed flag as stored: only true itself counts as owned, any truthy value counts as a claim.
  datatype Managed = Unset | TrueFlag | Truthy | Falsy

  datatype Options = Options(managed: Managed, adapter: Option<Adapter>, adapterAddress: Option<Address>, rest: string)

  datatype Gateway = Gateway(id: string, meshtasticBluetooth: bool, bleAddress: Option<Address>, options: Options)

  // Adapter, adapter address, device address.
  type BondKey = (string, string, string)

  function Normalized(a: Option<Address>): Option<string> {
    if a.Some? && a.value.Valid? then Some(a.value.mac) else None
  }

  function ConfiguredBondKey(g: Gateway): Option<BondKey> {
    if !g.meshtasticBluetooth || g.options.adapter.None? || !g.options.adapter.value.Hci? then None
    else if Normalized(g.options.adapterAddress).None? || Normalized(g.bleAddress).None? then None
    else Some((g.options.adapter.value.digits, Normalized(g.options.adapterAddress).value,
               Normalized(g.bleAddress).value))
  }

  function OwnedBondKey(g: Gateway): Option<BondKey> {
    if g.options.managed.TrueFlag? then ConfiguredBondKey(g) else None
  }

  predicate Owned(g: Gateway) {
    OwnedBondKey(g).Some?
  }

  function OwnedKeys(gs: seq<Gateway>): set<BondKey> {
    set i | 0 <= i < |gs| && Owned(gs[i]) :: OwnedBondKey(gs[i]).value
  }

  // By id, the last owned gateway of that id.
  function OwnedById(gs: seq<Gateway>): map<string, Gateway> {
    if gs == [] then map[]
    else
      var last := gs[|gs| - 1];
      if Owned(last) then OwnedById(gs[..|gs| - 1])[last.id := last] else OwnedById(gs[..|gs| - 1])
  }

  function KeysOf(owned: map<string, Gateway>): set<BondKey> {
    set id | id in owned && Owned(owned[id]) :: OwnedBondKey(owned[id]).value
  }

  predicate Claims(g: Gateway) {
    g.options.managed.TrueFlag? || g.options.managed.Truthy?
  }

  // The proposed gateway still is the owned one: same id, same protocol and transport, same spelling.
  predicate SameOwnedBond(owned: map<string, Gateway>, g: Gateway) {
    g.id in owned && g.meshtasticBluetooth && g.bleAddress == owned[g.id].bleAddress
  }

  function Cleaned(g: Gateway): Gateway {
    g.(options := g.options.(managed := Unset, adapter := None, adapterAddress := None))
  }

  // The proposed gateway with its bond metadata taken from the current one, or taken away.
  function Reconciled(owned: map<string, Gateway>, g: Gateway): Gateway {
    if SameOwnedBond(owned, g) then
      var was := owned[g.id].options;
      g.(options := Options(TrueFlag, was.adapter, was.adapterAddress, g.options.rest))
    else Cleaned(g)
  }

  predicate AllOwned(owned: map<string, Gateway>) {
    forall id | id in owned :: Owned(owned[id]) && owned[id].id == id
  }

  lemma {:induction false} OwnedByIdHolds(gs: seq<Gateway>)
    ensures AllOwned(OwnedById(gs))
    ensures forall id | id in OwnedById(gs) :: OwnedById(gs)[id] in gs
    ensures forall g | g in gs && Owned(g) :: g.id in OwnedById(gs)
  {
    if gs != [] {
      OwnedByIdHolds(gs[..|gs| - 1]);
    }
  }

  // Nothing forged, nothing moved: an owned result is the current bond of the same id.
  lemma ReconciledKeepsKey(owned: map<string, Gateway>, g: Gateway)
    requires AllOwned(owned)
    ensures var r := Reconciled(owned, g);
            && (Owned(r) <==> SameOwnedBond(owned, g))
            && (Owned(r) ==> r.id in owned && OwnedBondKey(r) == OwnedBondKey(owned[r.id]))
            && Cleaned(r) == Cleaned(g)
  {
  }

  /** Which bond a gateway owns: only a Meshtastic Bluetooth gateway that is marked as managing its bond, with an
      hci adapter and two readable addresses, owns the bond of exactly those. */
  lemma OwnedExactly(g: Gateway)
    ensures var o := g.options;
            Owned(g) <==>
              && g.meshtasticBluetooth && o.managed.TrueFlag? && o.adapter.Some? && o.adapter.value.Hci?
              && o.adapterAddress.Some? && o.adapterAddress.value.Valid?
              && g.bleAddress.Some? && g.bleAddress.value.Valid?
    ensures Owned(g) ==>
              OwnedBondKey(g).value
              == (g.options.adapter.value.digits, g.options.adapterAddress.value.mac, g.bleAddress.value.mac)
  {
  }

  /** What reconciling does to one gateway: the bond metadata of its current self when it is the same endpoint, none
      otherwise, and nothing else. */
  lemma ReconciledExactly(owned: map<string, Gateway>, g: Gateway)
    requires AllOwned(owned)
    ensures var r := Reconciled(owned, g);
            && r.id == g.id && r.meshtasticBluetooth == g.meshtasticBluetooth && r.bleAddress == g.bleAddress
            && r.options.rest == g.options.rest
            && (if g.id in owned && g.meshtasticBluetooth && g.bleAddress == owned[g.id].bleAddress
                then r.options == owned[g.id].options.(rest := g.options.rest)
                else r.options == Options(Unset, None, None, g.options.rest))
  {
    if g.id in owned {
      OwnedExactly(owned[g.id]);
    }
  }

  /** The table of owned gateways holds, for every id that owns a bond, the last gateway of it that does. */
  lemma {:induction false} TableHoldsTheLast(gs: seq<Gateway>, id: string) returns (i: int)
    ensures id in OwnedById(gs) <==> exists j :: 0 <= j < |gs| && gs[j].id == id && Owned(gs[j])
    ensures id in OwnedById(gs) ==>
              && 0 <= i < |gs| && OwnedById(gs)[id] == gs[i] && gs[i].id == id && Owned(gs[i])
              && forall j | i < j < |gs| && gs[j].id == id :: !Owned(gs[j])
  {
    OwnedByIdHolds(gs);
    i := |gs| - 1;
    if gs != [] && !(Owned(gs[i]) && gs[i].id == id) {
      i := TableHoldsTheLast(gs[..|gs| - 1], id);
    }
  }

  predicate NoForgery(owned: map<string, Gateway>, proposed: seq<Gateway>) {
    forall g | g in proposed && Claims(g) :: SameOwnedBond(owned, g)
  }

  function Matched(owned: map<string, Gateway>, proposed: seq<Gateway>): set<string> {
    set g | g in proposed && SameOwnedBond(owned, g) :: g.id
  }

  /** An edit may be accepted when whatever claims a bond, truly or not, is the current owner's own endpoint, and every
      owned bond's endpoint is still there. */
  ghost predicate Acceptable(owned: map<string, Gateway>, proposed: seq<Gateway>) {
    && (forall g | g in proposed && !g.options.managed.Unset? && !g.options.managed.Falsy? ::
          g.id in owned && g.meshtasticBluetooth && g.bleAddress == owned[g.id].bleAddress)
    && (forall id | id in owned ::
          exists g | g in proposed :: g.id == id && g.meshtasticBluetooth && g.bleAddress == owned[id].bleAddress)
  }

  lemma AcceptableMeans(owned: map<string, Gateway>, proposed: seq<Gateway>)
    ensures Acceptable(owned, proposed) <==> NoForgery(owned, proposed) && Matched(owned, proposed) == owned.Keys
  {
    if NoForgery(owned, proposed) && Matched(owned, proposed) == owned.Keys {
      forall id | id in owned
        ensures exists g | g in proposed :: g.id == id && SameOwnedBond(owned, g)
      {
        assert id in Matched(owned, proposed);
      }
    }
  }

  ghost predicate IsReconciled(owned: map<string, Gateway>, proposed: seq<Gateway>, r: seq<Gateway>) {
    |r| == |proposed| && forall i | 0 <= i < |r| :: r[i] == Reconciled(owned, proposed[i])
  }

  /** An edit is accepted exactly when no gateway claims a bond it does not have and every owned bond is
      still there; the result is the proposal with the current bond metadata. */
  method Reconcile(current: seq<Gateway>, proposed: seq<Gateway>) returns (r: Option<seq<Gateway>>)
    ensures r.Some? <==> NoForgery(OwnedById(current), proposed)
                         && Matched(OwnedById(current), proposed) == OwnedById(current).Keys
    ensures r.Some? ==> IsReconciled(OwnedById(current), proposed, r.value)
  {
    var owned := IndexOwned(current);
    OwnedByIdHolds(current);
    var matched: set<string> := {};
    var reconciled := [];
    for i := 0 to |proposed|
      invariant IsReconciled(owned, proposed[..i], reconciled)
      invariant NoForgery(owned, proposed[..i])
      invariant matched == Matched(owned, proposed[..i])
    {
      var g := proposed[i];
      NextMatched(owned, proposed, i);
      var options := g.options.(managed := Unset, adapter := None, adapterAddress := None);
      var same := g.id in owned && g.meshtasticBluetooth && g.bleAddress == owned[g.id].bleAddress;
      if Claims(g) && !same {
        return None;
      }
      if same {
        matched := matched + {g.id};
        var previous := owned[g.id].options;
        options := options.(managed := TrueFlag);
        if previous.adapter.Some? {
          options := options.(adapter := previous.adapter);
        }
        if previous.adapterAddress.Some? {
          options := options.(adapterAddress := previous.adapterAddress);
        }
      }
      reconciled := reconciled + [g.(options := options)];
    }
    assert proposed[..|proposed|] == proposed;
    if matched != owned.Keys {
      return None;
    }
    return Some(reconciled);
  }

  method IndexOwned(current: seq<Gateway>) returns (owned: map<string, Gateway>)
    ensures owned == OwnedById(current)
  {
    owned := map[];
    for i := 0 to |current|
      invariant owned == OwnedById(current[..i])
    {
      assert current[..i + 1][..i] == current[..i];
      if Owned(current[i]) {
        owned := owned[current[i].id := current[i]];
      }
    }
    assert current[..|current|] == current;
  }

  lemma NextMatched(owned: map<string, Gateway>, proposed: seq<Gateway>, i: nat)
    requires i < |proposed|
    ensures Matched(owned, proposed[..i + 1])
            == Matched(owned, proposed[..i]) + if SameOwnedBond(owned, proposed[i]) then {proposed[i].id} else {}
    ensures NoForgery(owned, proposed[..i + 1])
            <==> NoForgery(owned, proposed[..i]) && (Claims(proposed[i]) ==> SameOwnedBond(owned, proposed[i]))
    ensures NoForgery(owned, proposed) ==> NoForgery(owned, proposed[..i + 1])
  {
  }

  /** What an accepted edit leaves: exactly the bonds of the last owned gateway of each id, each still
      under its own id. */
  lemma AcceptedKeepsBonds(current: seq<Gateway>, proposed: seq<Gateway>, r: seq<Gateway>)
    requires var owned := OwnedById(current);
             Matched(owned, proposed) == owned.Keys && IsReconciled(owned, proposed, r)
    ensures OwnedKeys(r) == KeysOf(OwnedById(current))
    ensures forall id | id in OwnedById(current) ::
              exists g | g in r :: g.id == id && OwnedBondKey(g) == OwnedBondKey(OwnedById(current)[id])
  {
    var owned := OwnedById(current);
    OwnedByIdHolds(current);
    forall i | 0 <= i < |r|
      ensures Owned(r[i]) <==> SameOwnedBond(owned, proposed[i])
      ensures Owned(r[i]) ==> r[i].id in owned && OwnedBondKey(r[i]) == OwnedBondKey(owned[r[i].id])
    {
      ReconciledKeepsKey(owned, proposed[i]);
    }
    forall id | id in owned
      ensures exists g | g in r :: g.id == id && OwnedBondKey(g) == OwnedBondKey(owned[id])
      ensures OwnedBondKey(owned[id]).value in OwnedKeys(r)
    {
      assert id in Matched(owned, proposed);
      var g :| g in proposed && SameOwnedBond(owned, g) && g.id == id;
      var i :| 0 <= i < |proposed| && proposed[i] == g;
      assert r[i] in r && Owned(r[i]) && r[i].id == id;
    }
  }

  // No owned gateway's bond is held only by one that a later gateway of the same id replaces.
  ghost predicate NoneHidden(gs: seq<Gateway>) {
    forall g | g in gs && Owned(g) ::
      exists id | id in OwnedById(gs) :: OwnedBondKey(OwnedById(gs)[id]) == OwnedBondKey(g)
  }

  /** An accepted edit preserves the set of owned bonds exactly when none was hidden before it. */
  lemma PreservedUnlessHidden(current: seq<Gateway>, proposed: seq<Gateway>, r: seq<Gateway>)
    requires var owned := OwnedById(current);
             Matched(owned, proposed) == owned.Keys && IsReconciled(owned, proposed, r)
    ensures OwnedKeys(r) == OwnedKeys(current) <==> NoneHidden(current)
  {
    AcceptedKeepsBonds(current, proposed, r);
    IndexedAreOwned(current);
    if NoneHidden(current) {
      NoneHiddenCovers(current);
    } else {
      HiddenIsMissing(current);
    }
  }

  lemma IndexedAreOwned(gs: seq<Gateway>)
    ensures KeysOf(OwnedById(gs)) <= OwnedKeys(gs)
  {
    OwnedByIdHolds(gs);
    forall id | id in OwnedById(gs)
      ensures OwnedBondKey(OwnedById(gs)[id]).value in OwnedKeys(gs)
    {
      var i :| 0 <= i < |gs| && gs[i] == OwnedById(gs)[id];
    }
  }

  lemma NoneHiddenCovers(gs: seq<Gateway>)
    requires NoneHidden(gs)
    ensures OwnedKeys(gs) <= KeysOf(OwnedById(gs))
  {
  }

  lemma HiddenIsMissing(gs: seq<Gateway>)
    requires !NoneHidden(gs)
    ensures OwnedKeys(gs) != KeysOf(OwnedById(gs))
  {
    var g :| g in gs && Owned(g)
             && forall id | id in OwnedById(gs) :: OwnedBondKey(OwnedById(gs)[id]) != OwnedBondKey(g);
    var i :| 0 <= i < |gs| && gs[i] == g;
    assert OwnedBondKey(g).value in OwnedKeys(gs) && OwnedBondKey(g).value !in KeysOf(OwnedById(gs));
  }

  // The owned gateways of a list have distinct ids.
  ghost predicate UniqueOwnedIds(gs: seq<Gateway>) {
    forall i, j | 0 <= i < j < |gs| && Owned(gs[i]) && Owned(gs[j]) :: gs[i].id != gs[j].id
  }

  lemma {:induction false} UniqueAreIndexed(gs: seq<Gateway>, i: nat)
    requires UniqueOwnedIds(gs) && i < |gs| && Owned(gs[i])
    ensures gs[i].id in OwnedById(gs) && OwnedById(gs)[gs[i].id] == gs[i]
  {
    if i < |gs| - 1 {
      UniqueAreIndexed(gs[..|gs| - 1], i);
    }
  }

  /** With distinct ids among the owned gateways an accepted edit changes no bond: nothing is forged,
      orphaned or moved to another gateway, whatever the proposal. */
  lemma OwnershipIsPreserved(current: seq<Gateway>, proposed: seq<Gateway>, r: seq<Gateway>)
    requires UniqueOwnedIds(current)
    requires Matched(OwnedById(current), proposed) == OwnedById(current).Keys
    requires IsReconciled(OwnedById(current), proposed, r)
    ensures OwnedKeys(r) == OwnedKeys(current)
    ensures forall g | g in r && Owned(g) ::
              exists h | h in current :: h.id == g.id && OwnedBondKey(h) == OwnedBondKey(g)
    ensures forall h | h in current && Owned(h) ::
              exists g | g in r :: g.id == h.id && OwnedBondKey(g) == OwnedBondKey(h)
  {
    var owned := OwnedById(current);
    AcceptedKeepsBonds(current, proposed, r);
    OwnedByIdHolds(current);
    forall i | 0 <= i < |current| && Owned(current[i])
      ensures current[i].id in owned && owned[current[i].id] == current[i]
      ensures OwnedBondKey(current[i]).value in KeysOf(owned)
    {
      UniqueAreIndexed(current, i);
    }
    forall id | id in owned
      ensures OwnedBondKey(owned[id]).value in OwnedKeys(current)
    {
      var i :| 0 <= i < |current| && current[i] == owned[id];
    }
    forall g | g in r && Owned(g)
      ensures exists h | h in current :: h.id == g.id && OwnedBondKey(h) == OwnedBondKey(g)
    {
      var i :| 0 <= i < |r| && r[i] == g;
      ReconciledKeepsKey(owned, proposed[i]);
      assert owned[g.id] in current;
    }
  }

  /** Without distinct ids it fails: the second of two owned gateways hides the first, and an edit that
      drops the first is accepted although it orphans the first one's bond. */
  lemma DuplicateIdsOrphanABond() returns (current: seq<Gateway>, r: seq<Gateway>)
    ensures |current| == 2 && current[0].id == current[1].id && Owned(current[0])
    ensures NoForgery(OwnedById(current), [current[1]])
    ensures Matched(OwnedById(current), [current[1]]) == OwnedById(current).Keys
    ensures IsReconciled(OwnedById(current), [current[1]], r)
    ensures OwnedKeys(current) - OwnedKeys(r) == {OwnedBondKey(current[0]).value}
  {
    var options := Options(TrueFlag, Some(Hci("0")), Some(Valid("A", "A")), "");
    var first := Gateway("gw", true, Some(Valid("B", "B")), options);
    var second := Gateway("gw", true, Some(Valid("C", "C")), options);
    current := [first, second];
    assert current[..1] == [first] && [first][..0] == [];
    assert OwnedById([first]) == map["gw" := first];
    assert OwnedById(current) == map["gw" := second];
    r := [Reconciled(OwnedById(current), second)];
    assert r[0] == second;
    assert OwnedKeys(current) == {("0", "A", "B"), ("0", "A", "C")} by {
      assert Owned(current[0]) && Owned(current[1]);
    }
    assert OwnedKeys(r) == {("0", "A", "C")};
    assert second in [second];
    assert "gw" in Matched(OwnedById(current), [second]);
  }
}
