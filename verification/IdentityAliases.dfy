/**
Counting the groups of nodes that share an identity alias: a union-find over the node indexes, with
path halving, against plain graph connectivity.
*/
module IdentityAliases {
  import opened Basics

  datatype Alias = Alias(kind: string, value: string)

  // Per node, its normalized aliases.
  type Nodes = seq<set<Alias>>

  predicate Shares(nodes: Nodes, i: int, j: int) {
    0 <= i < |nodes| && 0 <= j < |nodes| && exists a | a in nodes[i] :: a in nodes[j]
  }

  // Consecutive nodes of a path share an alias.
  ghost predicate IsPath(nodes: Nodes, p: seq<int>) {
    && |p| > 0
    && (forall k | 0 <= k < |p| :: 0 <= p[k] < |nodes|)
    && (forall k | 0 < k < |p| :: Shares(nodes, p[k - 1], p[k]))
  }

  ghost predicate Connected(nodes: Nodes, i: int, j: int) {
    exists p :: IsPath(nodes, p) && p[0] == i && p[|p| - 1] == j
  }

  ghost function Component(nodes: Nodes, i: int): set<int> {
    set j | 0 <= j < |nodes| && Connected(nodes, i, j)
  }

  // The connected components of at least two nodes.
  ghost function Groups(nodes: Nodes): set<set<int>> {
    set i | 0 <= i < |nodes| && |Component(nodes, i)| > 1 :: Component(nodes, i)
  }

  function Holders(nodes: Nodes, a: Alias): set<int> {
    set i | 0 <= i < |nodes| && a in nodes[i]
  }

  function SharedAliases(nodes: Nodes): set<Alias> {
    set i, a | 0 <= i < |nodes| && a in nodes[i] && |Holders(nodes, a)| > 1 :: a
  }

  // i shares an alias with another node.
  predicate Collides(nodes: Nodes, i: int) {
    exists j | 0 <= j < |nodes| :: j != i && Shares(nodes, i, j)
  }

  function CollisionNodes(nodes: Nodes): set<int> {
    set i | 0 <= i < |nodes| && Collides(nodes, i)
  }

  // ---------------------------------------------------------------- connectivity

  lemma ConnectedToSelf(nodes: Nodes, i: int)
    requires 0 <= i < |nodes|
    ensures Connected(nodes, i, i)
  {
    assert IsPath(nodes, [i]);
  }

  lemma NeighboursConnect(nodes: Nodes, i: int, j: int)
    requires Shares(nodes, i, j)
    ensures Connected(nodes, i, j)
  {
    assert IsPath(nodes, [i, j]);
  }

  lemma ConnectedTrans(nodes: Nodes, i: int, j: int, k: int)
    requires Connected(nodes, i, j) && Connected(nodes, j, k)
    ensures Connected(nodes, i, k)
  {
    var p :| IsPath(nodes, p) && p[0] == i && p[|p| - 1] == j;
    var q :| IsPath(nodes, q) && q[0] == j && q[|q| - 1] == k;
    var r := p + q[1..];
    forall m | 0 < m < |r|
      ensures Shares(nodes, r[m - 1], r[m])
    {
      if m >= |p| {
        assert r[m - 1] == q[m - |p|] && r[m] == q[m - |p| + 1];
      }
    }
    assert IsPath(nodes, r);
  }

  lemma ConnectedSym(nodes: Nodes, i: int, j: int)
    requires Connected(nodes, i, j)
    ensures Connected(nodes, j, i)
  {
    var p :| IsPath(nodes, p) && p[0] == i && p[|p| - 1] == j;
    var r := seq(|p|, m requires 0 <= m < |p| => p[|p| - 1 - m]);
    forall m | 0 < m < |r|
      ensures Shares(nodes, r[m - 1], r[m])
    {
      assert Shares(nodes, p[|p| - 1 - m], p[|p| - m]);
    }
    assert IsPath(nodes, r);
  }

  lemma SameComponent(nodes: Nodes, i: int, j: int)
    requires Connected(nodes, i, j)
    ensures Component(nodes, i) == Component(nodes, j)
  {
    ConnectedSym(nodes, i, j);
    forall k | 0 <= k < |nodes|
      ensures Connected(nodes, i, k) <==> Connected(nodes, j, k)
    {
      if Connected(nodes, i, k) { ConnectedTrans(nodes, j, i, k); }
      if Connected(nodes, j, k) { ConnectedTrans(nodes, i, j, k); }
    }
  }

  // ---------------------------------------------------------------- the forest

  /** The parents form a forest: rep gives every node its root, and height falls along each parent. */
  ghost predicate Forest(parents: seq<int>, rep: seq<int>, height: seq<nat>) {
    && |rep| == |parents| == |height|
    && (forall i | 0 <= i < |parents| ::
          && 0 <= parents[i] < |parents| && 0 <= rep[i] < |parents|
          && rep[parents[i]] == rep[i]
          && (parents[i] == i ==> rep[i] == i)
          && (parents[i] != i ==> height[parents[i]] < height[i]))
    && (forall i | 0 <= i < |parents| :: parents[rep[i]] == rep[i])
  }

  // Every root is reachable from the nodes beneath it.
  ghost predicate Sound(nodes: Nodes, rep: seq<int>) {
    |rep| == |nodes| && forall i | 0 <= i < |rep| :: Connected(nodes, i, rep[i])
  }

  method Find(parents: array<int>, index: int, ghost rep: seq<int>, ghost height: seq<nat>) returns (root: int)
    requires Forest(parents[..], rep, height) && 0 <= index < parents.Length
    modifies parents
    ensures Forest(parents[..], rep, height)
    ensures root == rep[index] && parents[root] == root
  {
    root := index;
    while parents[root] != root
      invariant 0 <= root < parents.Length && Forest(parents[..], rep, height)
      invariant rep[root] == rep[index]
      decreases height[root]
    {
      HalvingKeepsForest(parents[..], rep, height, root);
      parents[root] := parents[parents[root]];
      root := parents[root];
    }
  }

  lemma HalvingKeepsForest(parents: seq<int>, rep: seq<int>, height: seq<nat>, i: int)
    requires Forest(parents, rep, height) && 0 <= i < |parents| && parents[i] != i
    ensures Forest(parents[i := parents[parents[i]]], rep, height)
    ensures height[parents[parents[i]]] < height[i]
  {
  }

  // Everything beneath one root moves under another.
  ghost function Regraft(rep: seq<int>, from: int, to: int): (r: seq<int>)
    ensures |r| == |rep| && forall i | 0 <= i < |rep| :: r[i] == if rep[i] == from then to else rep[i]
  {
    seq(|rep|, i requires 0 <= i < |rep| => if rep[i] == from then to else rep[i])
  }

  ghost function Raise(rep: seq<int>, height: seq<nat>, from: int, lift: nat): (r: seq<nat>)
    requires |rep| == |height|
    ensures |r| == |rep| && forall i | 0 <= i < |rep| :: r[i] == if rep[i] == from then height[i] + lift else height[i]
  {
    seq(|rep|, i requires 0 <= i < |rep| => if rep[i] == from then height[i] + lift else height[i])
  }

  lemma GraftKeepsForest(parents: seq<int>, rep: seq<int>, height: seq<nat>, left: int, right: int)
    requires Forest(parents, rep, height) && left != right
    requires 0 <= left < |parents| && 0 <= right < |parents| && parents[left] == left && parents[right] == right
    ensures Forest(parents[right := left], Regraft(rep, right, left), Raise(rep, height, right, height[left] + 1))
  {
  }

  // Nobody was parted.
  ghost predicate Coarser(rep: seq<int>, newRep: seq<int>) {
    |newRep| == |rep| &&
    forall i, j | 0 <= i < |rep| && 0 <= j < |rep| && rep[i] == rep[j] :: newRep[i] == newRep[j]
  }

  // After a union: the two nodes are together, nobody was parted, and soundness is kept.
  method Union(nodes: Nodes, parents: array<int>, left: int, right: int, ghost rep: seq<int>, ghost height: seq<nat>)
    returns (ghost newRep: seq<int>, ghost newHeight: seq<nat>)
    requires Forest(parents[..], rep, height) && Sound(nodes, rep)
    requires 0 <= left < parents.Length && 0 <= right < parents.Length && Shares(nodes, left, right)
    modifies parents
    ensures Forest(parents[..], newRep, newHeight) && Sound(nodes, newRep)
    ensures newRep[left] == newRep[right]
    ensures Coarser(rep, newRep)
  {
    newRep, newHeight := rep, height;
    var leftRoot := Find(parents, left, rep, height);
    var rightRoot := Find(parents, right, rep, height);
    if leftRoot != rightRoot {
      assert parents[leftRoot] == leftRoot by {
        assert parents[..][rep[left]] == rep[left];
      }
      GraftKeepsForest(parents[..], rep, height, leftRoot, rightRoot);
      GraftIsSound(nodes, rep, left, right);
      parents[rightRoot] := leftRoot;
      newRep, newHeight := Regraft(rep, rightRoot, leftRoot), Raise(rep, height, rightRoot, height[leftRoot] + 1);
    }
  }

  lemma GraftIsSound(nodes: Nodes, rep: seq<int>, left: int, right: int)
    requires Sound(nodes, rep) && Shares(nodes, left, right)
    ensures Sound(nodes, Regraft(rep, rep[right], rep[left]))
  {
    var grafted := Regraft(rep, rep[right], rep[left]);
    NeighboursConnect(nodes, right, left);
    forall i | 0 <= i < |rep|
      ensures Connected(nodes, i, grafted[i])
    {
      if rep[i] == rep[right] {
        ConnectedSym(nodes, right, rep[right]);
        ConnectedTrans(nodes, i, rep[i], right);
        ConnectedTrans(nodes, i, right, left);
        ConnectedTrans(nodes, i, left, rep[left]);
      }
    }
  }

  // ---------------------------------------------------------------- roots are components

  // The holders of a all have one root.
  ghost predicate Joined(nodes: Nodes, rep: seq<int>, a: Alias) {
    |rep| == |nodes| && forall i, j | i in Holders(nodes, a) && j in Holders(nodes, a) :: rep[i] == rep[j]
  }

  lemma TwoHolders(nodes: Nodes, a: Alias, i: int, j: int)
    requires i in Holders(nodes, a) && j in Holders(nodes, a) && i != j
    ensures |Holders(nodes, a)| > 1 && a in SharedAliases(nodes)
  {
    SmallerSet({i, j}, Holders(nodes, a));
  }

  lemma {:induction false} PathHasOneRoot(nodes: Nodes, rep: seq<int>, p: seq<int>)
    requires IsPath(nodes, p) && |rep| == |nodes|
    requires forall a | a in SharedAliases(nodes) :: Joined(nodes, rep, a)
    ensures rep[p[0]] == rep[p[|p| - 1]]
    decreases |p|
  {
    if |p| > 1 {
      PathHasOneRoot(nodes, rep, p[1..]);
      assert Shares(nodes, p[0], p[1]);
      var a :| a in nodes[p[0]] && a in nodes[p[1]];
      if p[0] != p[1] {
        TwoHolders(nodes, a, p[0], p[1]);
        assert Joined(nodes, rep, a);
      }
    }
  }

  /** Two nodes have one root exactly when shared aliases connect them. */
  lemma RootsAreComponents(nodes: Nodes, rep: seq<int>, i: int, j: int)
    requires Sound(nodes, rep) && forall a | a in SharedAliases(nodes) :: Joined(nodes, rep, a)
    requires 0 <= i < |nodes| && 0 <= j < |nodes|
    ensures rep[i] == rep[j] <==> Connected(nodes, i, j)
  {
    if rep[i] == rep[j] {
      ConnectedSym(nodes, j, rep[j]);
      ConnectedTrans(nodes, i, rep[i], j);
    }
    if Connected(nodes, i, j) {
      var p :| IsPath(nodes, p) && p[0] == i && p[|p| - 1] == j;
      PathHasOneRoot(nodes, rep, p);
    }
  }

  // ---------------------------------------------------------------- the alias table

  function HoldersBelow(nodes: Nodes, a: Alias, k: int): set<int> {
    set i | 0 <= i < |nodes| && i < k && a in nodes[i]
  }

  ghost predicate Indexes(nodes: Nodes, k: int, table: map<Alias, set<int>>) {
    && (forall a | a in table :: table[a] == HoldersBelow(nodes, a, k) && table[a] != {})
    && (forall i, a | 0 <= i < k && i < |nodes| && a in nodes[i] :: a in table)
  }

  // The table after node i's aliases, but those in rest.
  ghost predicate PartlyIndexes(nodes: Nodes, i: int, rest: set<Alias>, table: map<Alias, set<int>>) {
    && 0 <= i < |nodes|
    && (forall a | a in table :: table[a] == HoldersBelow(nodes, a, if a in rest then i else i + 1) && table[a] != {})
    && (forall j, a | 0 <= j < i && a in nodes[j] :: a in table)
    && (forall a | a in nodes[i] && a !in rest :: a in table)
  }

  method IndexNode(nodes: Nodes, i: int, table: map<Alias, set<int>>) returns (r: map<Alias, set<int>>)
    requires 0 <= i < |nodes| && Indexes(nodes, i, table)
    ensures Indexes(nodes, i + 1, r)
  {
    r := table;
    var rest := nodes[i];
    StartNode(nodes, i, table);
    while rest != {}
      invariant rest <= nodes[i] && PartlyIndexes(nodes, i, rest, r)
      decreases rest
    {
      var a :| a in rest;
      AddHolder(nodes, i, rest, r, a);
      r := r[a := (if a in r then r[a] else {}) + {i}];
      rest := rest - {a};
    }
  }

  lemma StartNode(nodes: Nodes, i: int, table: map<Alias, set<int>>)
    requires 0 <= i < |nodes| && Indexes(nodes, i, table)
    ensures PartlyIndexes(nodes, i, nodes[i], table)
  {
  }

  lemma AddHolder(nodes: Nodes, i: int, rest: set<Alias>, table: map<Alias, set<int>>, a: Alias)
    requires PartlyIndexes(nodes, i, rest, table) && rest <= nodes[i] && a in rest
    ensures PartlyIndexes(nodes, i, rest - {a}, table[a := (if a in table then table[a] else {}) + {i}])
  {
  }

  method IndexAliases(nodes: Nodes) returns (table: map<Alias, set<int>>)
    ensures forall a | a in table :: table[a] == Holders(nodes, a)
    ensures forall i, a | 0 <= i < |nodes| && a in nodes[i] :: a in table
  {
    table := map[];
    for i := 0 to |nodes|
      invariant Indexes(nodes, i, table)
    {
      table := IndexNode(nodes, i, table);
    }
    assert forall a :: HoldersBelow(nodes, a, |nodes|) == Holders(nodes, a);
  }

  // ---------------------------------------------------------------- joining

  method FirstHolder(nodes: Nodes, indexes: set<int>) returns (first: int)
    requires exists k :: k in indexes && 0 <= k < |nodes|
    requires forall k | k in indexes :: 0 <= k < |nodes|
    ensures first in indexes && forall k | k in indexes :: first <= k
  {
    ghost var some :| some in indexes && 0 <= some < |nodes|;
    first := 0;
    while first !in indexes
      invariant 0 <= first <= some
      invariant forall k | k in indexes :: first <= k
      decreases some - first
    {
      first := first + 1;
    }
  }

  ghost predicate JoinedBelow(nodes: Nodes, a: Alias, rep: seq<int>, first: int, n: int) {
    && |rep| == |nodes| && 0 <= first < |rep|
    && forall k | k in Holders(nodes, a) && k < n :: rep[k] == rep[first]
  }

  lemma FirstJoined(nodes: Nodes, a: Alias, rep: seq<int>, first: int)
    requires |rep| == |nodes| && first in Holders(nodes, a) && forall k | k in Holders(nodes, a) :: first <= k
    ensures JoinedBelow(nodes, a, rep, first, first + 1)
  {
  }

  lemma NextJoined(nodes: Nodes, a: Alias, rep: seq<int>, newRep: seq<int>, first: int, n: int)
    requires JoinedBelow(nodes, a, rep, first, n) && 0 <= n < |rep| && Coarser(rep, newRep)
    requires a in nodes[n] ==> newRep[n] == newRep[first]
    ensures JoinedBelow(nodes, a, newRep, first, n + 1)
  {
  }

  method JoinNext(nodes: Nodes, parents: array<int>, a: Alias, first: int, index: int, ghost rep: seq<int>,
                  ghost height: seq<nat>)
    returns (ghost newRep: seq<int>, ghost newHeight: seq<nat>)
    requires Forest(parents[..], rep, height) && Sound(nodes, rep)
    requires first in Holders(nodes, a) && first < index < |nodes| && JoinedBelow(nodes, a, rep, first, index)
    modifies parents
    ensures Forest(parents[..], newRep, newHeight) && Sound(nodes, newRep)
    ensures Coarser(rep, newRep) && JoinedBelow(nodes, a, newRep, first, index + 1)
  {
    newRep, newHeight := rep, height;
    if a in nodes[index] {
      newRep, newHeight := Union(nodes, parents, first, index, newRep, newHeight);
    }
    NextJoined(nodes, a, rep, newRep, first, index);
  }

  lemma CoarserTrans(r: seq<int>, s: seq<int>, t: seq<int>)
    requires Coarser(r, s) && Coarser(s, t)
    ensures Coarser(r, t)
  {
  }

  // Joins every holder of a to its first holder, in ascending order.
  method JoinHolders(nodes: Nodes, parents: array<int>, a: Alias, ghost rep: seq<int>, ghost height: seq<nat>)
    returns (ghost newRep: seq<int>, ghost newHeight: seq<nat>)
    requires Forest(parents[..], rep, height) && Sound(nodes, rep)
    requires exists k :: k in Holders(nodes, a) && 0 <= k < |nodes|
    modifies parents
    ensures Forest(parents[..], newRep, newHeight) && Sound(nodes, newRep)
    ensures Joined(nodes, newRep, a) && Coarser(rep, newRep)
  {
    newRep, newHeight := rep, height;
    var first := FirstHolder(nodes, Holders(nodes, a));
    FirstJoined(nodes, a, rep, first);
    for index := first + 1 to |nodes|
      invariant Forest(parents[..], newRep, newHeight) && Sound(nodes, newRep)
      invariant JoinedBelow(nodes, a, newRep, first, index) && Coarser(rep, newRep)
    {
      ghost var before := newRep;
      newRep, newHeight := JoinNext(nodes, parents, a, first, index, newRep, newHeight);
      CoarserTrans(rep, before, newRep);
    }
  }

  method JoinShared(nodes: Nodes, shared: set<Alias>) returns (parents: array<int>, ghost rep: seq<int>,
                    ghost height: seq<nat>)
    requires shared == SharedAliases(nodes)
    ensures fresh(parents) && Forest(parents[..], rep, height) && Sound(nodes, rep)
    ensures forall a | a in shared :: Joined(nodes, rep, a)
  {
    parents := new int[|nodes|](i => i);
    rep, height := parents[..], seq(|nodes|, i => 0);
    forall i | 0 <= i < |nodes|
      ensures Connected(nodes, i, rep[i])
    {
      ConnectedToSelf(nodes, i);
    }
    var rest := shared;
    while rest != {}
      invariant rest <= shared
      invariant Forest(parents[..], rep, height) && Sound(nodes, rep)
      invariant forall a | a in shared - rest :: Joined(nodes, rep, a)
      decreases rest
    {
      var a :| a in rest;
      assert exists k :: k in Holders(nodes, a) && 0 <= k < |nodes|;
      ghost var before := rep;
      rep, height := JoinHolders(nodes, parents, a, rep, height);
      forall b | b in shared - (rest - {a})
        ensures Joined(nodes, rep, b)
      {
        assert b == a || Joined(nodes, before, b);
      }
      rest := rest - {a};
    }
  }

  // ---------------------------------------------------------------- counting

  ghost predicate AllJoined(nodes: Nodes, rep: seq<int>) {
    Sound(nodes, rep) && forall a | a in SharedAliases(nodes) :: Joined(nodes, rep, a)
  }

  lemma SharedHoldersCollide(nodes: Nodes, i: int)
    requires 0 <= i < |nodes|
    ensures Collides(nodes, i) <==> exists a | a in SharedAliases(nodes) :: i in Holders(nodes, a)
  {
    if Collides(nodes, i) {
      var j :| 0 <= j < |nodes| && j != i && Shares(nodes, i, j);
      var a :| a in nodes[i] && a in nodes[j];
      TwoHolders(nodes, a, i, j);
    }
    if a :| a in SharedAliases(nodes) && i in Holders(nodes, a) {
      if forall j | j in Holders(nodes, a) :: j == i {
        SmallerSet(Holders(nodes, a), {i});
      } else {
        var j :| j in Holders(nodes, a) && j != i;
        assert Shares(nodes, i, j);
      }
    }
  }

  lemma {:induction false} PathCollides(nodes: Nodes, p: seq<int>)
    requires IsPath(nodes, p) && p[|p| - 1] != p[0]
    ensures Collides(nodes, p[0])
    decreases |p|
  {
    if p[1] != p[0] {
      assert Shares(nodes, p[0], p[1]);
    } else {
      PathCollides(nodes, p[1..]);
    }
  }

  // The nodes that collide are those in a component of at least two.
  lemma CollidingComponents(nodes: Nodes, i: int)
    requires 0 <= i < |nodes|
    ensures Collides(nodes, i) <==> |Component(nodes, i)| > 1
  {
    ConnectedToSelf(nodes, i);
    if Collides(nodes, i) {
      var j :| 0 <= j < |nodes| && j != i && Shares(nodes, i, j);
      NeighboursConnect(nodes, i, j);
      SmallerSet({i, j}, Component(nodes, i));
    }
    if |Component(nodes, i)| > 1 {
      if forall j | j in Component(nodes, i) :: j == i {
        SmallerSet(Component(nodes, i), {i});
      } else {
        var j :| j in Component(nodes, i) && j != i;
        var p :| IsPath(nodes, p) && p[0] == i && p[|p| - 1] == j;
        PathCollides(nodes, p);
      }
    }
  }

  function Roots(rep: seq<int>, members: set<int>): set<int> {
    set i | i in members && 0 <= i < |rep| :: rep[i]
  }

  function Beneath(rep: seq<int>, members: set<int>, root: int): set<int> {
    set i | i in members && 0 <= i < |rep| && rep[i] == root
  }

  ghost predicate Counted(rep: seq<int>, members: set<int>, groups: map<int, nat>) {
    groups.Keys == Roots(rep, members) && forall r | r in groups :: groups[r] == |Beneath(rep, members, r)|
  }

  lemma CountNext(rep: seq<int>, members: set<int>, groups: map<int, nat>, i: int)
    requires Counted(rep, members, groups) && 0 <= i < |rep| && i !in members
    ensures Counted(rep, members + {i}, groups[rep[i] := (if rep[i] in groups then groups[rep[i]] else 0) + 1])
  {
    var root := rep[i];
    assert Beneath(rep, members + {i}, root) == Beneath(rep, members, root) + {i};
    if root !in groups {
      assert Beneath(rep, members, root) == {};
    }
    forall r | r in groups && r != root
      ensures Beneath(rep, members + {i}, r) == Beneath(rep, members, r)
    {
    }
    assert Roots(rep, members + {i}) == Roots(rep, members) + {root};
  }

  // The groups count the members below n.
  ghost predicate CountedBelow(rep: seq<int>, members: set<int>, n: int, groups: map<int, nat>) {
    Counted(rep, (set i | i in members && i < n), groups)
  }

  lemma CountMember(rep: seq<int>, members: set<int>, n: int, groups: map<int, nat>)
    requires CountedBelow(rep, members, n, groups) && 0 <= n < |rep|
    ensures n !in members ==> CountedBelow(rep, members, n + 1, groups)
    ensures n in members ==>
              CountedBelow(rep, members, n + 1, groups[rep[n] := (if rep[n] in groups then groups[rep[n]] else 0) + 1])
  {
    var below := set i | i in members && i < n;
    if n in members {
      CountNext(rep, below, groups, n);
      assert (set i | i in members && i < n + 1) == below + {n};
    } else {
      assert (set i | i in members && i < n + 1) == below;
    }
  }

  lemma CountBegins(rep: seq<int>, members: set<int>)
    requires forall i | i in members :: 0 <= i < |rep|
    ensures CountedBelow(rep, members, 0, map[])
  {
    assert (set i | i in members && i < 0) == {};
  }

  lemma CountEnds(rep: seq<int>, members: set<int>, groups: map<int, nat>)
    requires forall i | i in members :: 0 <= i < |rep|
    requires CountedBelow(rep, members, |rep|, groups)
    ensures Counted(rep, members, groups)
  {
    assert (set i | i in members && i < |rep|) == members;
  }

  method CountNode(parents: array<int>, index: int, members: set<int>, groups: map<int, nat>,
                   ghost rep: seq<int>, ghost height: seq<nat>)
    returns (r: map<int, nat>)
    requires Forest(parents[..], rep, height) && 0 <= index < parents.Length
    requires CountedBelow(rep, members, index, groups)
    modifies parents
    ensures Forest(parents[..], rep, height) && CountedBelow(rep, members, index + 1, r)
  {
    CountMember(rep, members, index, groups);
    if index !in members {
      return groups;
    }
    var root := Find(parents, index, rep, height);
    r := groups[root := (if root in groups then groups[root] else 0) + 1];
  }

  method CountGroups(parents: array<int>, members: set<int>, ghost rep: seq<int>, ghost height: seq<nat>)
    returns (groups: map<int, nat>)
    requires Forest(parents[..], rep, height) && forall i | i in members :: 0 <= i < |rep|
    modifies parents
    ensures Counted(rep, members, groups)
  {
    CountBegins(rep, members);
    groups := map[];
    for index := 0 to parents.Length
      invariant Forest(parents[..], rep, height) && CountedBelow(rep, members, index, groups)
    {
      groups := CountNode(parents, index, members, groups, rep, height);
    }
    CountEnds(rep, members, groups);
  }

  ghost function BeneathAny(rep: seq<int>, members: set<int>, roots: set<int>): set<int> {
    set i | i in members && 0 <= i < |rep| && rep[i] in roots
  }

  lemma BeneathOneMore(rep: seq<int>, members: set<int>, done: set<int>, root: int)
    requires root !in done
    ensures |BeneathAny(rep, members, done + {root})|
         == |BeneathAny(rep, members, done)| + |Beneath(rep, members, root)|
  {
    var before, own := BeneathAny(rep, members, done), Beneath(rep, members, root);
    assert BeneathAny(rep, members, done + {root}) == before + own && before !! own;
  }

  method Totals(groups: map<int, nat>, ghost rep: seq<int>, ghost members: set<int>) returns (count: nat, size: nat)
    requires Counted(rep, members, groups) && forall i | i in members :: 0 <= i < |rep|
    requires forall r | r in groups :: groups[r] > 1
    ensures count == |Roots(rep, members)| && size == |members|
  {
    count, size := 0, 0;
    var rest := groups.Keys;
    assert BeneathAny(rep, members, groups.Keys - rest) == {};
    while rest != {}
      invariant rest <= groups.Keys
      invariant count == |groups.Keys - rest| && size == |BeneathAny(rep, members, groups.Keys - rest)|
      decreases rest
    {
      var root :| root in rest;
      ghost var done := groups.Keys - rest;
      assert groups.Keys - (rest - {root}) == done + {root};
      BeneathOneMore(rep, members, done, root);
      if groups[root] > 1 {
        count, size := count + 1, size + groups[root];
      }
      rest := rest - {root};
    }
    assert groups.Keys - rest == groups.Keys;
    assert BeneathAny(rep, members, groups.Keys) == members;
  }

  ghost function ComponentsOf(nodes: Nodes, roots: set<int>): set<set<int>> {
    set r | r in roots :: Component(nodes, r)
  }

  lemma ComponentsGrow(nodes: Nodes, rest: set<int>, r: int)
    ensures ComponentsOf(nodes, rest + {r}) == ComponentsOf(nodes, rest) + {Component(nodes, r)}
  {
  }

  lemma NewComponent(nodes: Nodes, rest: set<int>, r: int)
    requires 0 <= r < |nodes| && forall q | q in rest :: !Connected(nodes, q, r)
    ensures Component(nodes, r) !in ComponentsOf(nodes, rest)
  {
    ConnectedToSelf(nodes, r);
    forall q | q in rest
      ensures Component(nodes, q) != Component(nodes, r)
    {
      assert r in Component(nodes, r) && r !in Component(nodes, q);
    }
  }

  lemma {:induction false} DistinctComponents(nodes: Nodes, roots: set<int>)
    requires forall r | r in roots :: 0 <= r < |nodes|
    requires forall q, r | q in roots && r in roots && Connected(nodes, q, r) :: q == r
    ensures |ComponentsOf(nodes, roots)| == |roots|
    decreases roots
  {
    if roots == {} {
      assert ComponentsOf(nodes, roots) == {};
    } else {
      var r := Element(roots);
      var rest := roots - {r};
      DistinctComponents(nodes, rest);
      ComponentsGrow(nodes, rest, r);
      NewComponent(nodes, rest, r);
      assert roots == rest + {r};
    }
  }

  lemma RootsOfGroups(nodes: Nodes, rep: seq<int>)
    requires AllJoined(nodes, rep) && forall i | 0 <= i < |rep| :: 0 <= rep[i] < |rep| && rep[rep[i]] == rep[i]
    ensures Groups(nodes) == ComponentsOf(nodes, Roots(rep, CollisionNodes(nodes)))
    ensures |Groups(nodes)| == |Roots(rep, CollisionNodes(nodes))|
  {
    var roots := Roots(rep, CollisionNodes(nodes));
    forall i | 0 <= i < |nodes|
      ensures i in CollisionNodes(nodes) <==> |Component(nodes, i)| > 1
      ensures Component(nodes, i) == Component(nodes, rep[i])
    {
      CollidingComponents(nodes, i);
      SameComponent(nodes, i, rep[i]);
    }
    forall q, r | q in roots && r in roots && Connected(nodes, q, r)
      ensures q == r
    {
      RootsAreComponents(nodes, rep, q, r);
    }
    DistinctComponents(nodes, roots);
    GroupsMatch(nodes, rep);
  }

  lemma GroupsMatch(nodes: Nodes, rep: seq<int>)
    requires |rep| == |nodes| && forall i | 0 <= i < |rep| :: 0 <= rep[i] < |rep|
    requires forall i | 0 <= i < |nodes| :: i in CollisionNodes(nodes) <==> |Component(nodes, i)| > 1
    requires forall i | 0 <= i < |nodes| :: Component(nodes, i) == Component(nodes, rep[i])
    ensures Groups(nodes) == ComponentsOf(nodes, Roots(rep, CollisionNodes(nodes)))
  {
  }

  // Every group of colliding nodes has at least two of them.
  lemma GroupsAreBig(nodes: Nodes, rep: seq<int>, root: int)
    requires AllJoined(nodes, rep) && root in Roots(rep, CollisionNodes(nodes))
    ensures |Beneath(rep, CollisionNodes(nodes), root)| > 1
  {
    var members := CollisionNodes(nodes);
    var i :| i in members && 0 <= i < |rep| && rep[i] == root;
    var j :| 0 <= j < |nodes| && j != i && Shares(nodes, i, j);
    assert Shares(nodes, j, i) by {
      var a :| a in nodes[i] && a in nodes[j];
    }
    assert j in members;
    NeighboursConnect(nodes, i, j);
    RootsAreComponents(nodes, rep, i, j);
    SmallerSet({i, j}, Beneath(rep, members, root));
  }

  /** The three counts: aliases with more than one holder, nodes that share one with another node, and
      connected components of at least two nodes. */
  method CollisionSummary(nodes: Nodes) returns (groupCount: nat, nodeCount: nat, sharedCount: nat)
    ensures sharedCount == |SharedAliases(nodes)|
    ensures nodeCount == |CollisionNodes(nodes)|
    ensures groupCount == |Groups(nodes)|
  {
    var table := IndexAliases(nodes);
    var shared := set a | a in table && |table[a]| > 1;
    SharedFromTable(nodes, table, shared);
    var parents, rep, height := JoinShared(nodes, shared);
    var members := set a, i | a in shared && i in table[a] :: i;
    MembersCollide(nodes, table, shared, members);
    var groups := CountGroups(parents, members, rep, height);
    forall r | r in groups
      ensures groups[r] > 1
    {
      GroupsAreBig(nodes, rep, r);
    }
    RootsOfGroups(nodes, rep);
    groupCount, nodeCount := Totals(groups, rep, members);
    sharedCount := |shared|;
  }

  lemma SharedFromTable(nodes: Nodes, table: map<Alias, set<int>>, shared: set<Alias>)
    requires forall a | a in table :: table[a] == Holders(nodes, a)
    requires forall i, a | 0 <= i < |nodes| && a in nodes[i] :: a in table
    requires shared == set a | a in table && |table[a]| > 1
    ensures shared == SharedAliases(nodes)
  {
  }

  lemma MembersCollide(nodes: Nodes, table: map<Alias, set<int>>, shared: set<Alias>, members: set<int>)
    requires forall a | a in table :: table[a] == Holders(nodes, a)
    requires shared == SharedAliases(nodes) && forall a | a in shared :: a in table
    requires members == set a, i | a in shared && i in table[a] :: i
    ensures members == CollisionNodes(nodes)
  {
    forall i | 0 <= i < |nodes|
      ensures i in members <==> i in CollisionNodes(nodes)
    {
      SharedHoldersCollide(nodes, i);
    }
  }
}
