/**
The rolling node window: how many cached nodes the enabled-entity budget allows, the effective limit, and
the eviction of the least recently heard records beyond it.
*/
module NodeWindow {
  import opened Basics
  import opened Ordering

  const DEFAULT_NODE_LIMIT := 250
  const MIN_NODE_LIMIT := 25
  const MAX_NODE_LIMIT := 1000
  const ENTITY_BUDGET_HEADROOM := 1000

  // ---------------------------------------------------------------- budget arithmetic

  function Min(a: int, b: int): int {
    if a < b then a else b
  }

  function Max(a: int, b: int): int {
    if a < b then b else a
  }

  function EntityBudget(cap: int): (budget: int)
    ensures budget >= 1
    ensures cap >= 1 ==> budget <= cap
  {
    if cap > ENTITY_BUDGET_HEADROOM * 2 then cap - ENTITY_BUDGET_HEADROOM else Max(1, cap / 2)
  }

  /** What stays free below the cap is the headroom, or the larger half of a cap too small for it, except
      that a cap of one leaves nothing free; and a larger cap never lowers the budget. */
  lemma BudgetKeepsHeadroom(cap: int, larger: int)
    requires 1 <= cap <= larger
    ensures cap - EntityBudget(cap) == if cap == 1 then 0 else Min(ENTITY_BUDGET_HEADROOM, (cap + 1) / 2)
    ensures EntityBudget(cap) <= EntityBudget(larger) <= EntityBudget(cap) + (larger - cap)
  {
  }

  // The next integer upwards.
  function CeilingDiv(a: int, b: int): int
    requires b > 0
  {
    -((-a) / b)
  }

  // None: the configured window applies unchanged.
  function NodeCeiling(enabled: int, cached: int, budget: int): (r: Option<int>)
    ensures enabled <= 0 || cached <= 0 ==> r == None
  {
    if enabled <= 0 || cached <= 0 then None
    else if enabled + CeilingDiv(enabled, cached) <= budget then None
    else Some((cached * budget) / enabled)
  }

  lemma DivBounds(a: int, b: int)
    requires b > 0
    ensures (a / b) * b <= a < (a / b + 1) * b
  {
  }

  lemma ProductOrder(x: int, y: int, c: int)
    requires c > 0
    ensures x <= y <==> x * c <= y * c
    ensures x < y <==> x * c < y * c
  {
    if x <= y {
      assert (y - x) * c >= 0;
    } else {
      assert (x - y - 1) * c >= 0;
    }
  }

  lemma Scaled(k: int, enabled: int, product: int)
    requires enabled > 0
    ensures k <= product / enabled <==> k * enabled <= product
  {
    DivBounds(product, enabled);
    var q := product / enabled;
    if k <= q {
      ProductOrder(k, q, enabled);
    } else {
      ProductOrder(q + 1, k, enabled);
    }
  }

  // The rounded share of one node fits beside the enabled entities exactly when the unrounded one does.
  lemma OneMoreFits(enabled: int, cached: int, budget: int)
    requires enabled > 0 && cached > 0
    ensures enabled + CeilingDiv(enabled, cached) <= budget <==> (cached + 1) * enabled <= cached * budget
  {
    var room := budget - enabled;
    Scaled(-room, cached, -enabled);
    assert (-room) * cached == enabled * cached - cached * budget;
    assert (cached + 1) * enabled == cached * enabled + enabled;
  }

  /** The ceiling is the node count scaled by the budget, and it is withheld exactly when it would allow
      one more node than are cached. */
  lemma CeilingIsScaled(enabled: int, cached: int, budget: int)
    requires enabled > 0 && cached > 0
    ensures var r := NodeCeiling(enabled, cached, budget);
            && (r.None? <==> (cached + 1) * enabled <= cached * budget)
            && (r.Some? ==>
                  && r.value * enabled <= cached * budget < (r.value + 1) * enabled
                  && r.value <= cached
                  && (r.value == cached <==> enabled <= budget))
  {
    var q := cached * budget / enabled;
    OneMoreFits(enabled, cached, budget);
    DivBounds(cached * budget, enabled);
    Scaled(cached + 1, enabled, cached * budget);
    Scaled(cached, enabled, cached * budget);
    ProductOrder(enabled, budget, cached);
    assert cached * enabled == enabled * cached && cached * budget == budget * cached;
  }

  // A configured window as it comes from storage.
  datatype RawLimit = Flag | Number(value: int) | Unreadable

  function BoundedNodeLimit(raw: RawLimit): (limit: int)
    ensures MIN_NODE_LIMIT <= limit <= MAX_NODE_LIMIT
    ensures !raw.Number? ==> limit == DEFAULT_NODE_LIMIT
  {
    if raw.Number? then Max(MIN_NODE_LIMIT, Min(MAX_NODE_LIMIT, raw.value)) else DEFAULT_NODE_LIMIT
  }

  function Distance(a: int, b: int): int {
    if a < b then b - a else a - b
  }

  // A number is replaced by the supported limit nearest to it.
  lemma LimitIsNearest(value: int, other: int)
    requires MIN_NODE_LIMIT <= other <= MAX_NODE_LIMIT
    ensures Distance(BoundedNodeLimit(Number(value)), value) <= Distance(other, value)
  {
  }

  function EffectiveNodeLimit(raw: RawLimit, ceiling: Option<int>): (limit: int)
    ensures MIN_NODE_LIMIT <= limit <= BoundedNodeLimit(raw)
    ensures ceiling.None? ==> limit == BoundedNodeLimit(raw)
    ensures ceiling.Some? ==> limit <= MIN_NODE_LIMIT || limit <= ceiling.value
    ensures limit < BoundedNodeLimit(raw) ==> ceiling.Some? && limit == Max(MIN_NODE_LIMIT, ceiling.value)
  {
    var configured := BoundedNodeLimit(raw);
    if ceiling.None? then configured else Min(configured, Max(MIN_NODE_LIMIT, ceiling.value))
  }

  // ---------------------------------------------------------------- recency

  type Key = string

  // When a record was last heard, if its time can be read at all.
  datatype Node = Node(heard: Option<real>, nodeId: string)

  type Nodes = map<Key, Node>

  function HeardAt(nodes: Nodes, k: Key): Option<real> {
    if k in nodes then nodes[k].heard else None
  }

  // Never heard first, then the oldest, then the smaller key.
  predicate Earlier(nodes: Nodes, a: Key, b: Key) {
    match (HeardAt(nodes, a), HeardAt(nodes, b))
    case (None, Some(_)) => true
    case (Some(_), None) => false
    case (None, None) => TextLess(a, b)
    case (Some(s), Some(t)) => s < t || (s == t && TextLess(a, b))
  }

  function ByRecency(nodes: Nodes): (Key, Key) -> bool {
    (a, b) => Earlier(nodes, a, b)
  }

  lemma NotBothEarlier(nodes: Nodes, a: Key, b: Key)
    ensures !(Earlier(nodes, a, b) && Earlier(nodes, b, a))
  {
    TextTotal(a, b);
  }

  lemma RecencyOrder(nodes: Nodes, keys: set<Key>)
    ensures StrictOrder(ByRecency(nodes), keys)
  {
    TextOrder(keys);
  }

  // ---------------------------------------------------------------- trimming

  function Unprotected(nodes: Nodes, protected: set<Key>): set<Key> {
    nodes.Keys - protected
  }

  /** What a trim may evict: as many unprotected records as overflow, or all of them, and none that
      outranks an unprotected one that is kept. */
  ghost predicate IsTrim(nodes: Nodes, protected: set<Key>, limit: int, evicted: seq<Key>) {
    && SortedBy(ByRecency(nodes), evicted)
    && Members(evicted) <= Unprotected(nodes, protected)
    && |evicted| == Min(Max(0, |nodes| - limit), |Unprotected(nodes, protected)|)
    && (forall e, k | e in evicted && k in Unprotected(nodes, protected) && k !in evicted :: Earlier(nodes, e, k))
  }

  /** The choice leaves no freedom: the same records go, in the same order, however they were stored. */
  lemma TrimIsUnique(nodes: Nodes, protected: set<Key>, limit: int, a: seq<Key>, b: seq<Key>)
    requires IsTrim(nodes, protected, limit, a) && IsTrim(nodes, protected, limit, b)
    ensures a == b
  {
    TrimmedSets(nodes, protected, limit, a, b);
    RecencyOrder(nodes, Members(a));
    SortedIsUnique(ByRecency(nodes), a, b);
  }

  lemma TrimmedSets(nodes: Nodes, protected: set<Key>, limit: int, a: seq<Key>, b: seq<Key>)
    requires IsTrim(nodes, protected, limit, a) && IsTrim(nodes, protected, limit, b)
    ensures Members(a) == Members(b)
  {
    RecencyOrder(nodes, Members(a) + Members(b));
    SortedSize(ByRecency(nodes), a);
    SortedSize(ByRecency(nodes), b);
    if x :| x in Members(a) && x !in Members(b) {
      if y :| y in Members(b) && y !in Members(a) {
        NotBothEarlier(nodes, x, y);
      } else {
        SmallerSet(Members(b), Members(a) - {x});
      }
    } else {
      SmallerSet(Members(a), Members(b));
    }
  }

  function Without(nodes: Nodes, evicted: seq<Key>): Nodes {
    nodes - Members(evicted)
  }

  /** After a trim the window holds, or every record left is protected; trimming again, while the same
      records that are left are protected, evicts nothing. */
  lemma TrimSettles(nodes: Nodes, before: set<Key>, after: set<Key>, limit: int, evicted: seq<Key>, again: seq<Key>)
    requires IsTrim(nodes, before, limit, evicted)
    requires Unprotected(Without(nodes, evicted), after) == Unprotected(Without(nodes, evicted), before)
    requires IsTrim(Without(nodes, evicted), after, limit, again)
    ensures |Without(nodes, evicted)| <= limit || Without(nodes, evicted).Keys <= after
    ensures again == []
  {
    RecencyOrder(nodes, Members(evicted));
    SortedSize(ByRecency(nodes), evicted);
    var left := Without(nodes, evicted);
    assert left.Keys == nodes.Keys - Members(evicted);
    assert |left.Keys| == |nodes.Keys| - |evicted|;
    var open, remaining := Unprotected(nodes, before), Unprotected(left, after);
    assert remaining == open - Members(evicted);
    assert |remaining| == |open| - |evicted|;
    assert remaining == {} ==> left.Keys <= after;
  }

  /** The first record was heard no later than the second: it was never heard, or both were and its time is not
      after the other's; between equal times, or none, its key comes first. */
  ghost predicate NoFresher(nodes: Nodes, a: Key, b: Key)
    requires a in nodes && b in nodes
  {
    && (nodes[a].heard.Some? ==> nodes[b].heard.Some? && nodes[a].heard.value <= nodes[b].heard.value)
    && (nodes[a].heard == nodes[b].heard ==> TextLess(a, b))
  }

  /** As many go as overflow, or all that may; what goes was heard no later than anything else that might have gone,
      and goes in that order. */
  ghost predicate TakesTheStalest(nodes: Nodes, open: set<Key>, limit: int, evicted: seq<Key>)
    requires open <= nodes.Keys
  {
    && |evicted| == Min(Max(0, |nodes| - limit), |open|)
    && (forall e | e in evicted :: e in open)
    && (forall e, k | e in evicted && k in open && k !in evicted :: NoFresher(nodes, e, k))
    && (forall i, j | 0 <= i < j < |evicted| :: NoFresher(nodes, evicted[i], evicted[j]))
  }

  lemma EarlierIsNoFresher(nodes: Nodes, a: Key, b: Key)
    requires a in nodes && b in nodes && Earlier(nodes, a, b)
    ensures NoFresher(nodes, a, b)
  {
  }

  // The stalest go.
  lemma TrimTakesTheStalest(nodes: Nodes, protected: set<Key>, limit: int, evicted: seq<Key>)
    requires IsTrim(nodes, protected, limit, evicted)
    ensures TakesTheStalest(nodes, nodes.Keys - protected, limit, evicted)
  {
    var open := Unprotected(nodes, protected);
    forall e | e in evicted ensures e in open {
      assert e in Members(evicted);
    }
    forall e, k | e in evicted && k in open && k !in evicted ensures NoFresher(nodes, e, k) {
      EarlierIsNoFresher(nodes, e, k);
    }
    forall i, j | 0 <= i < j < |evicted| ensures NoFresher(nodes, evicted[i], evicted[j]) {
      EarlierIsNoFresher(nodes, evicted[i], evicted[j]);
    }
  }

  method LeastRecent(nodes: Nodes, protected: set<Key>, limit: int) returns (evicted: seq<Key>)
    ensures IsTrim(nodes, protected, limit, evicted)
    ensures TakesTheStalest(nodes, nodes.Keys - protected, limit, evicted)
  {
    var overflow := |nodes| - limit;
    if overflow <= 0 {
      TrimTakesTheStalest(nodes, protected, limit, []);
      return [];
    }
    RecencyOrder(nodes, Unprotected(nodes, protected));
    var candidates := Sort(Unprotected(nodes, protected), ByRecency(nodes));
    var count := Min(overflow, |candidates|);
    FirstAreEarliest(nodes, candidates, count);
    evicted := candidates[..count];
    TrimTakesTheStalest(nodes, protected, limit, evicted);
  }

  // The gateways' own radios, and the raw keys behind favorite nodes.
  function ProtectedNodeKeys(nodes: Nodes, localIds: set<string>, favorites: set<Key>): set<Key> {
    (set k | k in nodes && nodes[k].nodeId in localIds) + favorites
  }

  // The records that nothing keeps: not the update at hand, a favorite, or a gateway's own radio.
  function Evictable(nodes: Nodes, protect: set<Key>, localIds: set<string>, favorites: set<Key>): set<Key> {
    set k | k in nodes && k !in protect && k !in favorites && nodes[k].nodeId !in localIds
  }

  lemma UnprotectedAreEvictable(nodes: Nodes, protect: set<Key>, localIds: set<string>, favorites: set<Key>)
    ensures nodes.Keys - (protect + ProtectedNodeKeys(nodes, localIds, favorites))
         == Evictable(nodes, protect, localIds, favorites)
  {
  }

  class Coordinator {
    var rawNodes: Nodes
    var sessionObserved: set<Key>
    var nodeLimit: RawLimit
    var nodeCeiling: Option<int>
    var localIds: set<string>
    var favorites: set<Key>

    constructor ()
      ensures rawNodes == map[] && sessionObserved == {} && nodeLimit == Number(DEFAULT_NODE_LIMIT)
    {
      rawNodes, sessionObserved, nodeLimit, nodeCeiling := map[], {}, Number(DEFAULT_NODE_LIMIT), None;
      localIds, favorites := {}, {};
    }

    method Forget(evicted: seq<Key>)
      modifies `rawNodes, `sessionObserved
      ensures rawNodes == Without(old(rawNodes), evicted)
      ensures sessionObserved == old(sessionObserved) - Members(evicted)
    {
      rawNodes := rawNodes - Members(evicted);
      sessionObserved := sessionObserved - Members(evicted);
    }

    method TrimRawNodesToWindow(protect: set<Key>) returns (evicted: seq<Key>)
      modifies `rawNodes, `sessionObserved
      ensures IsTrim(old(rawNodes), protect + ProtectedNodeKeys(old(rawNodes), localIds, favorites),
                     EffectiveNodeLimit(nodeLimit, nodeCeiling), evicted)
      ensures TakesTheStalest(old(rawNodes), Evictable(old(rawNodes), protect, localIds, favorites),
                              EffectiveNodeLimit(nodeLimit, nodeCeiling), evicted)
      ensures rawNodes == Without(old(rawNodes), evicted)
      ensures sessionObserved == old(sessionObserved) - Members(evicted)
    {
      var protected := protect + ProtectedNodeKeys(rawNodes, localIds, favorites);
      UnprotectedAreEvictable(rawNodes, protect, localIds, favorites);
      evicted := LeastRecent(rawNodes, protected, EffectiveNodeLimit(nodeLimit, nodeCeiling));
      Forget(evicted);
    }
  }

  lemma FirstAreEarliest(nodes: Nodes, ranked: seq<Key>, n: nat)
    requires SortedBy(ByRecency(nodes), ranked) && n <= |ranked|
    ensures SortedBy(ByRecency(nodes), ranked[..n]) && Members(ranked[..n]) <= Members(ranked)
    ensures forall e, k | e in ranked[..n] && k in Members(ranked) && k !in ranked[..n] :: Earlier(nodes, e, k)
  {
  }

  /** Recomputing what is protected after a trim gives the same answer for the records that are left. */
  lemma ProtectionStays(nodes: Nodes, evicted: seq<Key>, protect: set<Key>, localIds: set<string>, favorites: set<Key>)
    ensures var left := Without(nodes, evicted);
            Unprotected(left, protect + ProtectedNodeKeys(left, localIds, favorites))
            == Unprotected(left, protect + ProtectedNodeKeys(nodes, localIds, favorites))
  {
  }
}
