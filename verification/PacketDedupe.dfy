/**
The packet deduplicator: an insertion-ordered table of fingerprints that expires old entries and evicts
the oldest beyond a limit, against a specification over the whole history of sightings.
*/
module PacketDedupe {
  import opened Basics

  datatype Sighting = Sighting(fp: string, time: real)

  // The fingerprints seen at position k or later.
  function Since(h: seq<Sighting>, k: int): set<string> {
    set i | 0 <= i < |h| && k <= i :: h[i].fp
  }

  ghost predicate IsLastOf(h: seq<Sighting>, i: int, fp: string) {
    0 <= i < |h| && h[i].fp == fp && fp !in Since(h, i + 1)
  }

  /** What a duplicate is: the last sighting is no older than the time to live, and fewer than max
      fingerprints were seen since. */
  ghost predicate Duplicate(h: seq<Sighting>, ttl: real, max: nat, fp: string, now: real) {
    exists i :: IsLastOf(h, i, fp) && h[i].time >= now - ttl && |Since(h, i + 1)| < max
  }

  function Without(s: seq<Sighting>, fp: string): (r: seq<Sighting>)
    ensures |r| <= |s|
  {
    if s == [] then []
    else if s[0].fp == fp then Without(s[1..], fp)
    else [s[0]] + Without(s[1..], fp)
  }

  // The last sighting of every fingerprint, least recently seen first.
  function Order(h: seq<Sighting>): seq<Sighting> {
    if h == [] then []
    else Without(Order(h[..|h| - 1]), h[|h| - 1].fp) + [h[|h| - 1]]
  }

  ghost predicate Distinct(s: seq<Sighting>) {
    forall i, j | 0 <= i < j < |s| :: s[i].fp != s[j].fp
  }

  ghost predicate Sorted(s: seq<Sighting>) {
    forall i, j | 0 <= i < j < |s| :: s[i].time <= s[j].time
  }

  ghost predicate Holds(s: seq<Sighting>, fp: string) {
    exists k :: 0 <= k < |s| && s[k].fp == fp
  }

  lemma {:induction false} WithoutAbsent(s: seq<Sighting>, fp: string)
    requires !Holds(s, fp)
    ensures Without(s, fp) == s
  {
    if s != [] {
      assert forall k | 0 <= k < |s| - 1 :: s[1..][k] == s[k + 1];
      WithoutAbsent(s[1..], fp);
    }
  }

  // The position an entry came from when the one at k was taken out.
  function Source(k: int, i: int): int {
    if i < k then i else i + 1
  }

  // r is s with the entry at k taken out.
  ghost predicate TakenOut(s: seq<Sighting>, k: int, r: seq<Sighting>) {
    0 <= k < |s| && |r| == |s| - 1 && forall i | 0 <= i < |r| :: r[i] == s[Source(k, i)]
  }

  lemma Join(a: seq<Sighting>, b: seq<Sighting>, c: seq<Sighting>)
    ensures a + (b + c) == (a + b) + c
  {
  }

  lemma {:induction false} WithoutSplits(a: seq<Sighting>, b: seq<Sighting>, fp: string)
    ensures Without(a + b, fp) == Without(a, fp) + Without(b, fp)
  {
    if a == [] {
      assert a + b == b;
    } else {
      WithoutSplits(a[1..], b, fp);
      assert (a + b)[1..] == a[1..] + b;
      Join([a[0]], Without(a[1..], fp), Without(b, fp));
    }
  }

  lemma SplitAt(s: seq<Sighting>, k: nat)
    requires k < |s|
    ensures s == s[..k] + ([s[k]] + s[k + 1..])
  {
  }

  lemma WithoutMiddle(front: seq<Sighting>, x: Sighting, back: seq<Sighting>)
    requires !Holds(front, x.fp) && !Holds(back, x.fp)
    ensures Without(front + ([x] + back), x.fp) == front + back
  {
    WithoutSplits(front, [x] + back, x.fp);
    WithoutAbsent(front, x.fp);
    WithoutAbsent(back, x.fp);
    assert ([x] + back)[1..] == back;
  }

  lemma CutOut(s: seq<Sighting>, k: nat)
    requires k < |s|
    ensures TakenOut(s, k, s[..k] + s[k + 1..])
  {
  }

  lemma WithoutAt(s: seq<Sighting>, k: nat)
    requires Distinct(s) && k < |s|
    ensures TakenOut(s, k, Without(s, s[k].fp))
  {
    assert !Holds(s[..k], s[k].fp) && !Holds(s[k + 1..], s[k].fp);
    WithoutMiddle(s[..k], s[k], s[k + 1..]);
    SplitAt(s, k);
    CutOut(s, k);
  }

  lemma TakenOutKeeps(s: seq<Sighting>, k: int, r: seq<Sighting>, x: Sighting)
    requires Distinct(s) && Sorted(s) && TakenOut(s, k, r) && s[k].fp == x.fp
    requires forall i | 0 <= i < |s| :: s[i].time <= x.time
    ensures Distinct(r + [x]) && Sorted(r + [x])
  {
  }

  // How one sighting changes the order: its own fingerprint moves to the end.
  ghost predicate Touched(s: seq<Sighting>, x: Sighting, t: seq<Sighting>) {
    |t| > 0 && t[|t| - 1] == x &&
    var r := t[..|t| - 1];
    if Holds(s, x.fp) then exists k :: TakenOut(s, k, r) && s[k].fp == x.fp else r == s
  }

  lemma OrderTouched(s: seq<Sighting>, x: Sighting)
    requires Distinct(s)
    ensures Touched(s, x, Without(s, x.fp) + [x])
  {
    var t := Without(s, x.fp) + [x];
    assert t[..|t| - 1] == Without(s, x.fp);
    if k :| 0 <= k < |s| && s[k].fp == x.fp {
      WithoutAt(s, k);
    } else {
      WithoutAbsent(s, x.fp);
    }
  }

  lemma TouchedKeeps(s: seq<Sighting>, x: Sighting, t: seq<Sighting>)
    requires Distinct(s) && Sorted(s) && Touched(s, x, t)
    requires forall i | 0 <= i < |s| :: s[i].time <= x.time
    ensures Distinct(t) && Sorted(t)
  {
    var r := t[..|t| - 1];
    assert t == r + [x];
    if Holds(s, x.fp) {
      var k :| TakenOut(s, k, r) && s[k].fp == x.fp;
      TakenOutKeeps(s, k, r, x);
    }
  }

  // Behind the entry that moved from q to p there are now also the fingerprint x's.
  lemma TouchedSince(s: seq<Sighting>, x: Sighting, t: seq<Sighting>, p: nat) returns (q: nat)
    requires Distinct(s) && Touched(s, x, t) && p < |t| - 1
    ensures q < |s| && t[p] == s[q] && Since(t, p + 1) == Since(s, q + 1) + {x.fp}
  {
    var r := t[..|t| - 1];
    if Holds(s, x.fp) {
      var k :| TakenOut(s, k, r) && s[k].fp == x.fp;
      q := Source(k, p);
      assert t[p] == r[p];
      forall m | q + 1 <= m < |s|
        ensures s[m].fp in Since(t, p + 1)
      {
        if m == k {
          assert t[|t| - 1].fp == s[m].fp;
        } else {
          var n := if m < k then m else m - 1;
          assert t[n] == r[n] == s[m];
        }
      }
      forall m | p + 1 <= m < |t|
        ensures t[m].fp in Since(s, q + 1) + {x.fp}
      {
        if m < |t| - 1 {
          assert t[m] == r[m] == s[Source(k, m)];
        }
      }
      assert t[|t| - 1].fp in Since(t, p + 1);
    } else {
      q := p;
      SinceAppend(s, x, p + 1);
      assert t == s + [x];
    }
  }

  lemma SinceAppend(h: seq<Sighting>, x: Sighting, k: int)
    requires k <= |h|
    ensures Since(h + [x], k) == Since(h, k) + {x.fp}
  {
    var longer := h + [x];
    assert longer[|h|] == x;
    forall f | f in Since(h, k)
      ensures f in Since(longer, k)
    {
      var m :| 0 <= m < |h| && k <= m && h[m].fp == f;
      assert longer[m] == h[m];
    }
  }

  lemma {:induction false} OrderKeeps(h: seq<Sighting>)
    requires Sorted(h)
    ensures Distinct(Order(h)) && Sorted(Order(h))
    ensures h != [] ==> forall i | 0 <= i < |Order(h)| :: Order(h)[i].time <= h[|h| - 1].time
  {
    if h != [] {
      var front, x := h[..|h| - 1], h[|h| - 1];
      OrderKeeps(front);
      OrderTouched(Order(front), x);
      TouchedKeeps(Order(front), x, Order(h));
    }
  }

  /** Position k of the order is the last sighting of its fingerprint, and behind it are exactly the
      fingerprints seen since. */
  lemma {:induction false} OrderRanks(h: seq<Sighting>, k: nat) returns (i: nat)
    requires Sorted(h) && k < |Order(h)|
    ensures i < |h| && h[i] == Order(h)[k]
    ensures Since(h, i + 1) == Since(Order(h), k + 1)
  {
    var front, x := h[..|h| - 1], h[|h| - 1];
    OrderKeeps(front);
    OrderTouched(Order(front), x);
    if k == |Order(h)| - 1 {
      i := |h| - 1;
    } else {
      var q := TouchedSince(Order(front), x, Order(h), k);
      i := OrderRanks(front, q);
      SinceAppend(front, x, i + 1);
      assert h == front + [x];
    }
  }

  lemma {:induction false} OrderCovers(h: seq<Sighting>, i: nat) returns (k: nat)
    requires Sorted(h) && i < |h|
    ensures k < |Order(h)| && Order(h)[k].fp == h[i].fp
  {
    var front, x := h[..|h| - 1], h[|h| - 1];
    if h[i].fp == x.fp {
      k := |Order(h)| - 1;
    } else {
      var q := OrderCovers(front, i);
      OrderKeeps(front);
      var s := Order(front);
      if j :| 0 <= j < |s| && s[j].fp == x.fp {
        WithoutAt(s, j);
        k := if q < j then q else q - 1;
      } else {
        WithoutAbsent(s, x.fp);
        k := q;
      }
    }
  }

  lemma {:induction false} SinceSize(s: seq<Sighting>, k: nat)
    requires Distinct(s) && k <= |s|
    ensures |Since(s, k)| == |s| - k
    decreases |s| - k
  {
    if k < |s| {
      SinceSize(s, k + 1);
      assert Since(s, k) == Since(s, k + 1) + {s[k].fp};
    }
  }

  // In terms of the order: recent enough, and near enough to its end.
  predicate NearAt(order: seq<Sighting>, ttl: real, max: nat, now: real, k: int) {
    0 <= k < |order| && order[k].time >= now - ttl && |order| - 1 - k < max
  }

  lemma LaterIsSince(h: seq<Sighting>)
    ensures forall i, j, fp | IsLastOf(h, i, fp) && IsLastOf(h, j, fp) :: i == j
  {
  }

  lemma RankDecides(h: seq<Sighting>, ttl: real, max: nat, now: real, k: nat)
    requires Sorted(h) && k < |Order(h)|
    ensures Duplicate(h, ttl, max, Order(h)[k].fp, now) <==> NearAt(Order(h), ttl, max, now, k)
  {
    var fp := Order(h)[k].fp;
    OrderKeeps(h);
    var i := OrderRanks(h, k);
    SinceSize(Order(h), k + 1);
    assert IsLastOf(h, i, fp);
    LaterIsSince(h);
  }

  lemma UnseenIsNew(h: seq<Sighting>, ttl: real, max: nat, fp: string, now: real)
    requires Sorted(h) && !Holds(Order(h), fp)
    ensures !Duplicate(h, ttl, max, fp, now)
  {
    forall i | IsLastOf(h, i, fp)
      ensures false
    {
      var k := OrderCovers(h, i);
    }
  }

  // The table is the order without its first entries, none of which could still make a duplicate.
  ghost predicate Kept(order: seq<Sighting>, seen: seq<Sighting>, dropped: nat, ttl: real, max: nat, now: real) {
    && dropped <= |order|
    && seen == order[dropped..]
    && forall k | 0 <= k < dropped :: !NearAt(order, ttl, max, now, k)
  }

  lemma LaterKeepsTable(order: seq<Sighting>, seen: seq<Sighting>, dropped: nat, ttl: real, max: nat,
                        now: real, later: real)
    requires Kept(order, seen, dropped, ttl, max, now) && now <= later
    ensures Kept(order, seen, dropped, ttl, max, later)
  {
    forall k | 0 <= k < dropped
      ensures !NearAt(order, ttl, max, later, k)
    {
      assert !NearAt(order, ttl, max, now, k);
    }
  }

  // A sighting that the table had dropped: it leaves the dropped part of the order.
  lemma TouchDropped(order: seq<Sighting>, seen: seq<Sighting>, dropped: nat, k: nat, x: Sighting, ttl: real, max: nat)
    requires Distinct(order) && Kept(order, seen, dropped, ttl, max, x.time)
    requires k < dropped && order[k].fp == x.fp
    ensures Without(seen, x.fp) == seen
    ensures Kept(Without(order, x.fp) + [x], seen + [x], dropped - 1, ttl, max, x.time)
  {
    WithoutAt(order, k);
    WithoutAbsent(seen, x.fp);
    var moved := Without(order, x.fp) + [x];
    assert moved[dropped - 1..] == seen + [x];
    forall j | 0 <= j < dropped - 1
      ensures !NearAt(moved, ttl, max, x.time, j)
    {
      assert moved[j] == order[Source(k, j)];
      assert !NearAt(order, ttl, max, x.time, Source(k, j));
    }
  }

  lemma HeldSuffix(order: seq<Sighting>, seen: seq<Sighting>, dropped: nat, k: nat)
    requires Distinct(order) && dropped <= k < |order| && seen == order[dropped..]
    ensures TakenOut(order, k, Without(order, order[k].fp))
    ensures Without(order, order[k].fp)[dropped..] == Without(seen, order[k].fp)
  {
    assert seen[k - dropped] == order[k];
    WithoutAt(order, k);
    WithoutAt(seen, k - dropped);
  }

  lemma TouchHeld(order: seq<Sighting>, seen: seq<Sighting>, dropped: nat, k: nat, x: Sighting, ttl: real, max: nat)
    requires Distinct(order) && Kept(order, seen, dropped, ttl, max, x.time)
    requires dropped <= k < |order| && order[k].fp == x.fp
    ensures Kept(Without(order, x.fp) + [x], Without(seen, x.fp) + [x], dropped, ttl, max, x.time)
  {
    HeldSuffix(order, seen, dropped, k);
    var rest := Without(order, x.fp);
    assert (rest + [x])[dropped..] == rest[dropped..] + [x];
    forall j | 0 <= j < dropped
      ensures !NearAt(rest + [x], ttl, max, x.time, j)
    {
      assert rest[j] == order[j];
      assert !NearAt(order, ttl, max, x.time, j);
    }
  }

  lemma TouchNew(order: seq<Sighting>, seen: seq<Sighting>, dropped: nat, x: Sighting, ttl: real, max: nat)
    requires Kept(order, seen, dropped, ttl, max, x.time) && !Holds(order, x.fp)
    ensures Without(seen, x.fp) == seen
    ensures Kept(Without(order, x.fp) + [x], seen + [x], dropped, ttl, max, x.time)
  {
    WithoutAbsent(order, x.fp);
    WithoutAbsent(seen, x.fp);
    forall j | 0 <= j < dropped
      ensures !NearAt(order + [x], ttl, max, x.time, j)
    {
      assert !NearAt(order, ttl, max, x.time, j);
    }
  }

  lemma TouchKeepsTable(order: seq<Sighting>, seen: seq<Sighting>, dropped: nat, x: Sighting, ttl: real, max: nat)
    returns (d: nat)
    requires Distinct(order) && Kept(order, seen, dropped, ttl, max, x.time)
    ensures Kept(Without(order, x.fp) + [x], Without(seen, x.fp) + [x], d, ttl, max, x.time)
  {
    d := dropped;
    if k :| 0 <= k < |order| && order[k].fp == x.fp {
      if k < dropped {
        TouchDropped(order, seen, dropped, k, x, ttl, max);
        d := dropped - 1;
      } else {
        TouchHeld(order, seen, dropped, k, x, ttl, max);
      }
    } else {
      TouchNew(order, seen, dropped, x, ttl, max);
    }
  }

  // An expired table holds a fingerprint exactly when its packet is a duplicate.
  lemma TableDecides(h: seq<Sighting>, seen: seq<Sighting>, dropped: nat, ttl: real, max: nat, fp: string, now: real)
    requires Sorted(h) && Kept(Order(h), seen, dropped, ttl, max, now) && |seen| <= max
    requires seen != [] ==> seen[0].time >= now - ttl
    ensures Holds(seen, fp) <==> Duplicate(h, ttl, max, fp, now)
  {
    var order := Order(h);
    OrderKeeps(h);
    if k :| 0 <= k < |order| && order[k].fp == fp {
      RankDecides(h, ttl, max, now, k);
      if dropped <= k {
        assert seen[k - dropped] == order[k];
      }
    } else {
      UnseenIsNew(h, ttl, max, fp, now);
    }
  }

  predicate InTable(s: seq<Sighting>, fp: string)
    ensures InTable(s, fp) <==> Holds(s, fp)
  {
    exists k | 0 <= k < |s| :: s[k].fp == fp
  }

  class PacketDeduplicator {
    const ttl: real
    const maxEntries: nat
    // Least recently seen first.
    var seen: seq<Sighting>
    var totalPackets: nat
    var duplicatePackets: nat
    ghost var history: seq<Sighting>
    ghost var dropped: nat

    // The clock does not run backwards.
    ghost predicate NotBefore(now: real)
      reads `history
    {
      history == [] || history[|history| - 1].time <= now
    }

    ghost predicate Table(now: real)
      reads `history, `seen, `dropped
    {
      Sorted(history) && Kept(Order(history), seen, dropped, ttl, maxEntries, now)
    }

    ghost function LastTime(): real
      reads `history
    {
      if history == [] then 0.0 else history[|history| - 1].time
    }

    ghost predicate Valid()
      reads `history, `seen, `dropped
    {
      |seen| <= maxEntries && Table(LastTime())
    }

    constructor (ttl: real, maxEntries: nat)
      ensures Valid() && history == [] && this.ttl == ttl && this.maxEntries == maxEntries
      ensures totalPackets == duplicatePackets == 0
    {
      this.ttl, this.maxEntries := ttl, maxEntries;
      seen, totalPackets, duplicatePackets := [], 0, 0;
      history, dropped := [], 0;
    }

    // A valid table is still one at a later time.
    lemma Reread(now: real)
      requires Valid() && NotBefore(now)
      ensures Table(now)
    {
      if history != [] {
        LaterKeepsTable(Order(history), seen, dropped, ttl, maxEntries, LastTime(), now);
      }
    }

    method Expire(now: real)
      requires Table(now)
      modifies `seen, `dropped
      ensures Table(now) && |seen| <= |old(seen)|
      ensures seen != [] ==> seen[0].time >= now - ttl
    {
      while seen != [] && seen[0].time < now - ttl
        invariant Table(now) && |seen| <= |old(seen)|
        decreases |seen|
      {
        seen := seen[1..];
        dropped := dropped + 1;
      }
    }

    method Evict(now: real)
      requires Table(now)
      modifies `seen, `dropped
      ensures Table(now) && |seen| <= maxEntries
      ensures |old(seen)| <= maxEntries ==> seen == old(seen)
    {
      while |seen| > maxEntries
        invariant Table(now)
        invariant |old(seen)| <= maxEntries ==> seen == old(seen)
        decreases |seen|
      {
        seen := seen[1..];
        dropped := dropped + 1;
      }
    }

    // The fingerprint moves to the end of the table, or enters there.
    method MoveToEnd(x: Sighting)
      requires Table(x.time) && NotBefore(x.time)
      modifies `seen, `dropped, `history
      ensures Table(x.time) && history == old(history) + [x]
      ensures |seen| == |Without(old(seen), x.fp)| + 1
    {
      OrderKeeps(history);
      dropped := TouchKeepsTable(Order(history), seen, dropped, x, ttl, maxEntries);
      assert (history + [x])[..|history|] == history;
      history := history + [x];
      seen := Without(seen, x.fp) + [x];
    }

    /** The table is distinct and in order of time, and dropping entries never loses a duplicate: what is
        not in the table is none, now or later. */
    lemma NothingIsLost(fp: string, now: real)
      requires Valid() && NotBefore(now)
      ensures Distinct(seen) && Sorted(seen)
      ensures Duplicate(history, ttl, maxEntries, fp, now) ==> Holds(seen, fp)
    {
      Reread(now);
      OrderKeeps(history);
      var order := Order(history);
      if k :| 0 <= k < |order| && order[k].fp == fp {
        RankDecides(history, ttl, maxEntries, now, k);
        if dropped <= k {
          assert seen[k - dropped] == order[k];
        }
      } else {
        UnseenIsNew(history, ttl, maxEntries, fp, now);
      }
    }

    // Expire, then look the fingerprint up.
    method Lookup(fp: string, now: real) returns (held: bool)
      requires Valid() && NotBefore(now)
      modifies `seen, `dropped
      ensures Table(now) && |seen| <= maxEntries
      ensures held <==> Holds(seen, fp)
      ensures held <==> Duplicate(history, ttl, maxEntries, fp, now)
    {
      Reread(now);
      Expire(now);
      TableDecides(history, seen, dropped, ttl, maxEntries, fp, now);
      held := InTable(seen, fp);
    }

    method StoreHeld(fp: string, now: real)
      requires Table(now) && NotBefore(now) && |seen| <= maxEntries && Holds(seen, fp)
      modifies `seen, `dropped, `history
      ensures Valid() && history == old(history) + [Sighting(fp, now)]
    {
      HeldMoves(seen, fp);
      MoveToEnd(Sighting(fp, now));
      assert LastTime() == now;
    }

    method StoreNew(fp: string, now: real)
      requires Table(now) && NotBefore(now)
      modifies `seen, `dropped, `history
      ensures Valid() && history == old(history) + [Sighting(fp, now)]
    {
      MoveToEnd(Sighting(fp, now));
      Evict(now);
      assert LastTime() == now;
    }

    method Store(fp: string, now: real, held: bool)
      requires Table(now) && NotBefore(now) && |seen| <= maxEntries && (held ==> Holds(seen, fp))
      modifies `seen, `dropped, `history
      ensures Valid() && history == old(history) + [Sighting(fp, now)]
    {
      if held {
        StoreHeld(fp, now);
      } else {
        StoreNew(fp, now);
      }
    }

    method IsDuplicate(fp: string, now: real) returns (duplicate: bool)
      requires Valid() && NotBefore(now)
      modifies this
      ensures Valid() && history == old(history) + [Sighting(fp, now)]
      ensures duplicate <==> Duplicate(old(history), ttl, maxEntries, fp, now)
      ensures totalPackets == old(totalPackets) + 1
      ensures duplicatePackets == old(duplicatePackets) + if duplicate then 1 else 0
    {
      totalPackets := totalPackets + 1;
      duplicate := Lookup(fp, now);
      if duplicate {
        duplicatePackets := duplicatePackets + 1;
      }
      Store(fp, now, duplicate);
    }
  }

  lemma {:induction false} HeldMoves(s: seq<Sighting>, fp: string)
    requires Holds(s, fp)
    ensures |Without(s, fp)| < |s|
  {
    if s[0].fp != fp {
      var k :| 0 <= k < |s| && s[k].fp == fp;
      assert s[1..][k - 1] == s[k];
      HeldMoves(s[1..], fp);
    }
  }
}
