/**
Merging observations into one node's state, and what a whole sequence of merges amounts to.
*/
module NodeMerge {
  import opened Basics
  import opened JsonMerge

  // The text attributes, each replaced by any non-empty newer value.
  datatype Attribute =
    | NodeId | Mac | PublicKey | UserName | LongName | ShortName
    | HardwareModel | FirmwareVersion | RadioType | Role

  type Texts = map<Attribute, string>

  // What the most recent sighting says.
  datatype Sighting = Sighting(lastHeard: Option<real>, lastGateway: Option<string>, online: bool)

  datatype Sections = Sections(power: Json, radio: Json, location: Json, routing: Json, sensors: Json, raw: Json)

  datatype Node = Node(
    meshtastic: bool, texts: Texts, sighting: Sighting, gatewayIds: set<string>,
    connectivity: Fields, sections: Sections)

  const HOPS := "hops"
  const HOPS_GATEWAY := "hops_gateway_id"
  const VIA_MQTT := "via_mqtt"
  const HOP_KEYS := {HOPS, HOPS_GATEWAY, VIA_MQTT}

  function MergeTexts(t: Texts, u: Texts): Texts {
    map a | a in t.Keys + u.Keys && (a in t || u[a] != "") :: if a in u && u[a] != "" then u[a] else t[a]
  }

  function MergeSighting(s: Sighting, o: Sighting): Sighting {
    if o.lastHeard.Some? && (s.lastHeard.None? || o.lastHeard.value >= s.lastHeard.value) then o else s
  }

  function SeenGateways(o: Node): set<string> {
    var last := o.sighting.lastGateway;
    o.gatewayIds + if last.Some? && last.value != "" then {last.value} else {}
  }

  function Field(c: Fields, k: string): Json {
    if k in c then c[k] else Null
  }

  // The hop count, its observing gateway and its transport, as one measurement.
  function WithHops(c: Fields, u: Fields): Fields
    requires HOPS in u && !u[HOPS].Null?
  {
    var cleared := (c - HOP_KEYS)[HOPS := u[HOPS]];
    var located := if Field(u, HOPS_GATEWAY).Null? then cleared else cleared[HOPS_GATEWAY := u[HOPS_GATEWAY]];
    located[VIA_MQTT := Flag(Field(u, VIA_MQTT) == Flag(true))]
  }

  function MergeConnectivity(meshtastic: bool, c: Fields, u: Fields): Fields {
    if meshtastic && HOPS in u then
      Merge(Obj(if u[HOPS].Null? then c else WithHops(c, u)), Obj(u - HOP_KEYS)).fields
    else Merge(Obj(c), Obj(u)).fields
  }

  function MergeSections(s: Sections, o: Sections): Sections {
    Sections(Merge(s.power, o.power), Merge(s.radio, o.radio), Merge(s.location, o.location),
             Merge(s.routing, o.routing), Merge(s.sensors, o.sensors), Merge(s.raw, o.raw))
  }

  function MergeNode(n: Node, o: Node): Node {
    Node(n.meshtastic, MergeTexts(n.texts, o.texts), MergeSighting(n.sighting, o.sighting),
         n.gatewayIds + SeenGateways(o), MergeConnectivity(n.meshtastic, n.connectivity, o.connectivity),
         MergeSections(n.sections, o.sections))
  }

  function MergeAll(n: Node, updates: seq<Node>): Node {
    if updates == [] then n
    else MergeNode(MergeAll(n, updates[..|updates| - 1]), updates[|updates| - 1])
  }

  // ---------------------------------------------------------------- last sighting

  // The node's own record, followed by the updates.
  function Records(n: Node, updates: seq<Node>): seq<Node> {
    [n] + updates
  }

  // Record i attains the latest time heard, and no later record does.
  ghost predicate IsLatest(records: seq<Node>, i: int) {
    && 0 <= i < |records| && records[i].sighting.lastHeard.Some?
    && forall j | 0 <= j < |records| && records[j].sighting.lastHeard.Some? ::
         var t := records[j].sighting.lastHeard.value;
         t <= records[i].sighting.lastHeard.value && (j > i ==> t < records[i].sighting.lastHeard.value)
  }

  ghost predicate NeverHeard(records: seq<Node>) {
    forall j | 0 <= j < |records| :: records[j].sighting.lastHeard.None?
  }

  /** The time heard, the gateway and the online flag all come from one record: the last to attain the
      latest time.  Records without a time never touch them. */
  lemma {:induction false} SightingIsLatest(n: Node, updates: seq<Node>) returns (i: int)
    ensures var records := Records(n, updates);
            && 0 <= i < |records| && MergeAll(n, updates).sighting == records[i].sighting
            && (if NeverHeard(records) then i == 0 else IsLatest(records, i))
  {
    if updates == [] {
      i := 0;
    } else {
      var front, last := updates[..|updates| - 1], updates[|updates| - 1];
      i := SightingIsLatest(n, front);
      assert Records(n, updates) == Records(n, front) + [last];
      i := NextLatest(Records(n, front), i, last);
    }
  }

  lemma NextLatest(records: seq<Node>, i: int, last: Node) returns (k: int)
    requires 0 <= i < |records|
    requires if NeverHeard(records) then i == 0 else IsLatest(records, i)
    ensures var longer := records + [last];
            && 0 <= k < |longer| && longer[k].sighting == MergeSighting(records[i].sighting, last.sighting)
            && (if NeverHeard(longer) then k == 0 else IsLatest(longer, k))
  {
    var longer := records + [last];
    assert longer[|records|] == last && longer[i] == records[i];
    assert NeverHeard(longer) <==> NeverHeard(records) && last.sighting.lastHeard.None? by {
      assert forall j | 0 <= j < |records| :: longer[j] == records[j];
    }
    var s, o := records[i].sighting, last.sighting;
    if o.lastHeard.Some? && (s.lastHeard.None? || o.lastHeard.value >= s.lastHeard.value) {
      k := |records|;
    } else {
      k := i;
    }
  }

  // ---------------------------------------------------------------- gateways

  function GatewaysOf(updates: seq<Node>): set<string> {
    set i, g | 0 <= i < |updates| && g in SeenGateways(updates[i]) :: g
  }

  /** The gateway ids are the union: nothing is lost and nothing is made up. */
  lemma {:induction false} GatewaysAreUnited(n: Node, updates: seq<Node>)
    ensures MergeAll(n, updates).gatewayIds == n.gatewayIds + GatewaysOf(updates)
  {
    if updates != [] {
      var front, last := updates[..|updates| - 1], updates[|updates| - 1];
      GatewaysAreUnited(n, front);
      assert GatewaysOf(updates) == GatewaysOf(front) + SeenGateways(last) by {
        assert updates[|updates| - 1] == last;
        forall g | g in GatewaysOf(front)
          ensures g in GatewaysOf(updates)
        {
          var i :| 0 <= i < |front| && g in SeenGateways(front[i]);
          assert front[i] == updates[i];
        }
      }
    }
  }

  // The record names the gateway: among its gateways, or as the one it was last heard by.
  predicate Mentions(o: Node, g: string) {
    g in o.gatewayIds || (g != "" && o.sighting.lastGateway == Some(g))
  }

  /** A gateway is known after any updates exactly when the node knew it or an update mentions it. */
  lemma GatewaysExactly(n: Node, updates: seq<Node>, g: string)
    ensures g in MergeAll(n, updates).gatewayIds <==>
              g in n.gatewayIds || exists i :: 0 <= i < |updates| && Mentions(updates[i], g)
  {
    GatewaysAreUnited(n, updates);
    if g in GatewaysOf(updates) {
      var i :| 0 <= i < |updates| && g in SeenGateways(updates[i]);
      assert Mentions(updates[i], g);
    }
    if i :| 0 <= i < |updates| && Mentions(updates[i], g) {
      assert g in SeenGateways(updates[i]);
    }
  }

  // ---------------------------------------------------------------- sections

  // One value merged over by several, in order.
  function MergeEach(base: Json, updates: seq<Json>): Json {
    if updates == [] then base else Merge(MergeEach(base, updates[..|updates| - 1]), updates[|updates| - 1])
  }

  // What every update says of one section.
  function Column(updates: seq<Node>, section: Sections -> Json): seq<Json> {
    seq(|updates|, i requires 0 <= i < |updates| => section(updates[i].sections))
  }

  lemma ColumnAppend(updates: seq<Node>, section: Sections -> Json)
    requires updates != []
    ensures Column(updates, section)
         == Column(updates[..|updates| - 1], section) + [section(updates[|updates| - 1].sections)]
  {
  }

  lemma {:induction false} SectionMerges(n: Node, updates: seq<Node>, section: Sections -> Json)
    requires forall s, o :: section(MergeSections(s, o)) == Merge(section(s), section(o))
    ensures section(MergeAll(n, updates).sections) == MergeEach(section(n.sections), Column(updates, section))
  {
    if updates != [] {
      var front, last := updates[..|updates| - 1], updates[|updates| - 1];
      SectionMerges(n, front, section);
      ColumnAppend(updates, section);
      var column := Column(updates, section);
      assert column[..|column| - 1] == Column(front, section);
      assert MergeAll(n, updates).sections == MergeSections(MergeAll(n, front).sections, last.sections);
    }
  }

  /** Sections never mix: after any updates each of the six is its own old value with its own updates merged over it,
      in order. */
  lemma SectionsMergeApart(n: Node, updates: seq<Node>)
    ensures var s := MergeAll(n, updates).sections;
            && s.power == MergeEach(n.sections.power, Column(updates, (x: Sections) => x.power))
            && s.radio == MergeEach(n.sections.radio, Column(updates, (x: Sections) => x.radio))
            && s.location == MergeEach(n.sections.location, Column(updates, (x: Sections) => x.location))
            && s.routing == MergeEach(n.sections.routing, Column(updates, (x: Sections) => x.routing))
            && s.sensors == MergeEach(n.sections.sensors, Column(updates, (x: Sections) => x.sensors))
            && s.raw == MergeEach(n.sections.raw, Column(updates, (x: Sections) => x.raw))
  {
    SectionMerges(n, updates, (x: Sections) => x.power);
    SectionMerges(n, updates, (x: Sections) => x.radio);
    SectionMerges(n, updates, (x: Sections) => x.location);
    SectionMerges(n, updates, (x: Sections) => x.routing);
    SectionMerges(n, updates, (x: Sections) => x.sensors);
    SectionMerges(n, updates, (x: Sections) => x.raw);
  }

  // ---------------------------------------------------------------- hops

  // A hop measurement, absent fields as null.
  datatype Measurement = Measurement(hops: Json, gateway: Json, viaMqtt: Json)

  function Measured(c: Fields): Measurement {
    Measurement(Field(c, HOPS), Field(c, HOPS_GATEWAY), Field(c, VIA_MQTT))
  }

  // The measurement as the merge stores it.
  function Observed(u: Fields): Measurement {
    Measurement(Field(u, HOPS), Field(u, HOPS_GATEWAY), Flag(Field(u, VIA_MQTT) == Flag(true)))
  }

  predicate HasHops(u: Fields) {
    !Field(u, HOPS).Null?
  }

  // The update either carries the hop count's key, or says nothing of its gateway and transport.
  predicate OneMeasurement(u: Fields) {
    HOPS in u || (Field(u, HOPS_GATEWAY).Null? && Field(u, VIA_MQTT).Null?)
  }

  lemma OtherKeysStay(c: Fields, u: Fields, k: string)
    ensures k !in u || u[k].Null? ==> Field(Merge(Obj(c), Obj(u)).fields, k) == Field(c, k)
  {
  }

  lemma StepKeepsMeasurement(c: Fields, u: Fields)
    requires OneMeasurement(u)
    ensures Measured(MergeConnectivity(true, c, u)) == if HasHops(u) then Observed(u) else Measured(c)
  {
    if HOPS in u {
      var base := if u[HOPS].Null? then c else WithHops(c, u);
      OtherKeysStay(base, u - HOP_KEYS, HOPS);
      OtherKeysStay(base, u - HOP_KEYS, HOPS_GATEWAY);
      OtherKeysStay(base, u - HOP_KEYS, VIA_MQTT);
    } else {
      OtherKeysStay(c, u, HOPS);
      OtherKeysStay(c, u, HOPS_GATEWAY);
      OtherKeysStay(c, u, VIA_MQTT);
    }
  }

  /** One update's effect on a Meshtastic node's connectivity, key by key: a hop count replaces the three keys of the
      measurement, a null one leaves them; every other key is merged as in a plain dictionary, and so is everything
      when there is no hop count's key or the node is of another protocol. */
  lemma ConnectivityExactly(meshtastic: bool, c: Fields, u: Fields, k: string)
    ensures var r := MergeConnectivity(meshtastic, c, u);
            if !meshtastic || "hops" !in u || k !in {"hops", "hops_gateway_id", "via_mqtt"}
            then
              var plain := Merge(Obj(c), Obj(u)).fields;
              (k in r <==> k in plain) && (k in r ==> r[k] == plain[k])
            else if u["hops"].Null? then (k in r <==> k in c) && (k in r ==> r[k] == c[k])
            else if k == "hops" then k in r && r[k] == u[k]
            else if k == "via_mqtt" then k in r && r[k] == Flag(k in u && u[k] == Flag(true))
            else (k in r <==> k in u && !u[k].Null?) && (k in r ==> r[k] == u[k])
  {
  }

  // The last update with a hop count, if any.
  ghost predicate IsLastHops(updates: seq<Node>, i: int) {
    && 0 <= i < |updates| && HasHops(updates[i].connectivity)
    && forall j | i < j < |updates| :: !HasHops(updates[j].connectivity)
  }

  ghost predicate NoHops(updates: seq<Node>) {
    forall i | 0 <= i < |updates| :: !HasHops(updates[i].connectivity)
  }

  lemma ConnectivityAll(n: Node, updates: seq<Node>)
    requires updates != []
    ensures var front := MergeAll(n, updates[..|updates| - 1]);
            MergeAll(n, updates).connectivity
            == MergeConnectivity(front.meshtastic, front.connectivity, updates[|updates| - 1].connectivity)
  {
  }

  lemma {:induction false} ProtocolStays(n: Node, updates: seq<Node>)
    ensures MergeAll(n, updates).meshtastic == n.meshtastic
  {
    if updates != [] {
      ProtocolStays(n, updates[..|updates| - 1]);
    }
  }

  /** Hop count, observing gateway and transport never mix: after any updates that each carry one
      measurement they are those of the last update with a hop count, or else the node's own. */
  lemma {:induction false} MeasurementsNeverMix(n: Node, updates: seq<Node>) returns (i: int)
    requires n.meshtastic && forall u | u in updates :: OneMeasurement(u.connectivity)
    ensures if NoHops(updates)
            then Measured(MergeAll(n, updates).connectivity) == Measured(n.connectivity)
            else IsLastHops(updates, i)
                 && Measured(MergeAll(n, updates).connectivity) == Observed(updates[i].connectivity)
  {
    i := 0;
    if updates != [] {
      var front, last := updates[..|updates| - 1], updates[|updates| - 1];
      i := MeasurementsNeverMix(n, front);
      ProtocolStays(n, front);
      ConnectivityAll(n, updates);
      StepKeepsMeasurement(MergeAll(n, front).connectivity, last.connectivity);
      LastOf(updates, i);
      if HasHops(last.connectivity) {
        i := |front|;
      }
    }
  }

  lemma LastOf(updates: seq<Node>, i: int)
    requires updates != []
    ensures var front, last := updates[..|updates| - 1], updates[|updates| - 1];
            && (NoHops(updates) <==> NoHops(front) && !HasHops(last.connectivity))
            && (IsLastHops(front, i) && !HasHops(last.connectivity) ==>
                  IsLastHops(updates, i) && updates[i] == front[i])
            && (HasHops(last.connectivity) ==> IsLastHops(updates, |front|))
  {
  }

  /** The condition is exact: an update keeps every node's measurement whole if and only if it carries
      one measurement. */
  lemma MixingIsExact(u: Fields)
    ensures OneMeasurement(u) <==>
            forall c: Fields :: Measured(MergeConnectivity(true, c, u)) in {Measured(c), Observed(u)}
  {
    forall c: Fields | OneMeasurement(u)
      ensures Measured(MergeConnectivity(true, c, u)) in {Measured(c), Observed(u)}
    {
      StepKeepsMeasurement(c, u);
    }
    if !OneMeasurement(u) {
      var c: Fields := map[HOPS := Leaf("3")];
      OtherKeysStay(c, u, HOPS);
      var m := Merge(Obj(c), Obj(u)).fields;
      assert Field(m, HOPS) == Leaf("3");
      assert Field(m, HOPS_GATEWAY) == Field(u, HOPS_GATEWAY) && Field(m, VIA_MQTT) == Field(u, VIA_MQTT);
      assert Measured(MergeConnectivity(true, c, u)) == Measured(m);
    }
  }

  // ---------------------------------------------------------------- text

  // The last update with a non-empty value for the attribute.
  ghost predicate IsLastText(updates: seq<Node>, a: Attribute, i: int) {
    && 0 <= i < |updates| && a in updates[i].texts && updates[i].texts[a] != ""
    && forall j | i < j < |updates| :: a in updates[j].texts ==> updates[j].texts[a] == ""
  }

  /** An attribute holds the last non-empty value; empty ones never erase it. */
  lemma {:induction false} LastTextWins(n: Node, updates: seq<Node>, a: Attribute, i: int)
    requires IsLastText(updates, a, i)
    ensures var t := MergeAll(n, updates).texts; a in t && t[a] == updates[i].texts[a]
  {
    var front := updates[..|updates| - 1];
    if i < |front| {
      assert front[i] == updates[i];
      LastTextWins(n, front, a, i);
    }
  }

  // ---------------------------------------------------------------- the object

  class NodeState {
    const meshtastic: bool
    var texts: Texts
    var online: bool
    var lastHeard: Option<real>
    var lastGatewayId: Option<string>
    var gatewayIds: set<string>
    var connectivity: Fields
    var sections: Sections

    ghost function View(): Node
      reads this
    {
      Node(meshtastic, texts, Sighting(lastHeard, lastGatewayId, online), gatewayIds, connectivity, sections)
    }

    constructor (n: Node)
      ensures View() == n
    {
      meshtastic, texts := n.meshtastic, n.texts;
      online, lastHeard, lastGatewayId := n.sighting.online, n.sighting.lastHeard, n.sighting.lastGateway;
      gatewayIds, connectivity, sections := n.gatewayIds, n.connectivity, n.sections;
    }

    method MergeAttributes(other: Texts)
      modifies `texts
      ensures texts == MergeTexts(old(texts), other)
    {
      var rest := other.Keys;
      while rest != {}
        invariant rest <= other.Keys
        invariant texts == MergeTexts(old(texts), other - rest)
        decreases rest
      {
        var a :| a in rest;
        rest := rest - {a};
        if other[a] != "" {
          texts := texts[a := other[a]];
        }
      }
      assert other - rest == other;
    }

    method MergeHops(update: Fields) returns (remaining: Fields)
      modifies `connectivity
      ensures Merge(Obj(connectivity), Obj(remaining)).fields
              == MergeConnectivity(meshtastic, old(connectivity), update)
    {
      if !meshtastic || HOPS !in update {
        return update;
      }
      var hops, gateway, mqtt := update[HOPS], Field(update, HOPS_GATEWAY), Field(update, VIA_MQTT);
      remaining := update - HOP_KEYS;
      if !hops.Null? {
        connectivity := connectivity - HOP_KEYS;
        connectivity := connectivity[HOPS := hops];
        if !gateway.Null? {
          connectivity := connectivity[HOPS_GATEWAY := gateway];
        }
        connectivity := connectivity[VIA_MQTT := Flag(mqtt == Flag(true))];
      }
    }

    method MergeSeen(other: Sighting)
      modifies `lastHeard, `lastGatewayId, `online
      ensures Sighting(lastHeard, lastGatewayId, online)
              == MergeSighting(old(Sighting(lastHeard, lastGatewayId, online)), other)
    {
      if other.lastHeard.Some? && (lastHeard.None? || other.lastHeard.value >= lastHeard.value) {
        lastHeard, lastGatewayId, online := other.lastHeard, other.lastGateway, other.online;
      }
    }

    method MergeGateways(other: Node)
      modifies `gatewayIds
      ensures gatewayIds == old(gatewayIds) + SeenGateways(other)
    {
      gatewayIds := gatewayIds + other.gatewayIds;
      if other.sighting.lastGateway.Some? && other.sighting.lastGateway.value != "" {
        gatewayIds := gatewayIds + {other.sighting.lastGateway.value};
      }
    }

    method MergeFrom(other: Node)
      modifies this
      ensures View() == MergeNode(old(View()), other)
    {
      MergeAttributes(other.texts);
      MergeSeen(other.sighting);
      MergeGateways(other);
      var remaining := MergeHops(other.connectivity);
      connectivity := MergeDict(connectivity, Obj(remaining));
      sections := MergeSections(sections, other.sections);
    }
  }
}
