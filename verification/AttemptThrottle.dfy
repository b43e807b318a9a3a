/**
The brute-force throttle in front of pairing: at most three attempts per address in ten minutes, as long
as the address has not been crowded out of a bounded table of addresses.
*/
module AttemptThrottle {
  import opened Basics

  const LIMIT := 3
  const WINDOW := 600.0
  const ADDRESS_CACHE := 128

  datatype Attempt = Attempt(address: string, time: real)

  // The admitted attempts, in order.
  type Log = seq<Attempt>

  ghost predicate Sorted(log: Log) {
    forall i, j | 0 <= i < j < |log| :: log[i].time <= log[j].time
  }

  // The address of attempt p did not come again up to position k.
  predicate Away(log: Log, p: nat, k: nat)
    requires k < |log|
  {
    p < k && forall m | p < m <= k :: log[m].address != log[p].address
  }

  // The addresses admitted after attempt p and before the next attempt on its address.
  function Between(log: Log, p: nat): set<string>
    requires p < |log|
  {
    set k: nat | k < |log| && Away(log, p, k) :: log[k].address
  }

  // Enough addresses to push the one of attempt p out of the table.
  predicate Gap(log: Log, p: nat)
    requires p < |log|
  {
    |Between(log, p)| >= ADDRESS_CACHE
  }

  predicate Forgotten(log: Log, e: nat)
    requires e < |log|
  {
    exists p {:trigger Gap(log, p)} :: e <= p < |log| && log[p].address == log[e].address && Gap(log, p)
  }

  predicate IsRecent(log: Log, e: nat, address: string, now: real)
    requires e < |log|
  {
    log[e].address == address && log[e].time > now - WINDOW
  }

  function Remembered(log: Log, address: string, now: real): set<nat> {
    set e: nat | e < |log| && IsRecent(log, e, address, now) && !Forgotten(log, e)
  }

  predicate Admits(log: Log, address: string, now: real) {
    |Remembered(log, address, now)| < LIMIT
  }

  /** Every admitted attempt found fewer than three remembered ones in its window. */
  predicate Throttled(log: Log) {
    forall l {:trigger log[..l]} | 0 <= l < |log| :: Admits(log[..l], log[l].address, log[l].time)
  }

  lemma AwayLater(log: Log, a: Attempt, p: nat, k: nat)
    requires p < |log| && k < |log|
    ensures Away(log + [a], p, k) <==> Away(log, p, k)
  {
    var longer := log + [a];
    assert forall m | p <= m <= k :: longer[m] == log[m];
  }

  lemma BetweenLater(log: Log, a: Attempt, p: nat)
    requires p < |log|
    ensures Between(log + [a], p)
         == Between(log, p) + if Away(log + [a], p, |log|) then {a.address} else {}
  {
    var longer := log + [a];
    forall k: nat | k < |log|
      ensures longer[k] == log[k] && (Away(longer, p, k) <==> Away(log, p, k))
    {
      AwayLater(log, a, p, k);
    }
    forall address | address in Between(log, p)
      ensures address in Between(longer, p)
    {
      var k: nat :| k < |log| && Away(log, p, k) && log[k].address == address;
      assert Away(longer, p, k);
    }
    if Away(longer, p, |log|) {
      assert longer[|log|].address == a.address;
    }
  }

  lemma GapStays(log: Log, a: Attempt, p: nat)
    requires p < |log| && Gap(log, p)
    ensures Gap(log + [a], p)
  {
    BetweenLater(log, a, p);
    SmallerSet(Between(log, p), Between(log + [a], p));
  }

  lemma ForgottenStays(log: Log, a: Attempt, e: nat)
    requires e < |log| && Forgotten(log, e)
    ensures Forgotten(log + [a], e)
  {
    var p :| e <= p < |log| && log[p].address == log[e].address && Gap(log, p);
    GapStays(log, a, p);
    assert (log + [a])[p] == log[p];
  }

  lemma ThreeAreThree(i: nat, j: nat, k: nat, s: set<nat>)
    requires i < j < k && {i, j, k} <= s
    ensures |s| >= 3
  {
    SmallerSet({i, j, k}, s);
    assert |{i, j, k}| == 3;
  }

  lemma FirstIsForgotten(log: Log, i: nat, j: nat, k: nat, address: string, now: real)
    requires i < j < k < |log| && Admits(log, address, now)
    requires IsRecent(log, i, address, now) && IsRecent(log, j, address, now) && IsRecent(log, k, address, now)
    ensures Forgotten(log, i)
  {
    if !Forgotten(log, i) {
      ThreeAreThree(i, j, k, Remembered(log, address, now));
    }
  }

  /** A fourth attempt on one address within the window is admitted only over a gap: 128 other addresses
      between one of its attempts and the next. */
  lemma FourthNeedsAGap(log: Log, i: nat, j: nat, k: nat, l: nat) returns (p: nat)
    requires Throttled(log) && Sorted(log) && i < j < k < l < |log|
    requires log[i].address == log[j].address == log[k].address == log[l].address
    requires log[l].time - log[i].time < WINDOW
    ensures i <= p < l && log[p].address == log[l].address && Gap(log[..l], p)
  {
    var before := log[..l];
    assert log[i].time <= log[j].time <= log[k].time;
    FirstIsForgotten(before, i, j, k, log[l].address, log[l].time);
    p :| i <= p < |before| && before[p].address == before[i].address && Gap(before, p);
  }

  // The address of i, j and k came at i, j, k and not again after i.
  ghost predicate LastThree(log: Log, i: nat, j: nat, k: nat) {
    && i < j < k < |log|
    && log[i].address == log[j].address == log[k].address
    && forall m | i < m < |log| && log[m].address == log[i].address :: m == j || m == k
  }

  lemma GapForgets(log: Log, p: nat)
    requires p < |log| && Gap(log, p)
    ensures forall e: nat | e <= p && log[e].address == log[p].address :: Forgotten(log, e)
  {
  }

  /** And it is admitted over every gap: after three attempts in the window the next one is admitted exactly
      when one of the three was followed by 128 other addresses before the next came. */
  lemma FourthIsExact(log: Log, i: nat, j: nat, k: nat, now: real)
    requires Sorted(log) && LastThree(log, i, j, k) && log[i].time > now - WINDOW
    ensures Admits(log, log[i].address, now) <==> Gap(log, i) || Gap(log, j) || Gap(log, k)
  {
    var address := log[i].address;
    if Gap(log, i) || Gap(log, j) || Gap(log, k) {
      GapForgets(log, if Gap(log, i) then i else if Gap(log, j) then j else k);
      SmallerSet(Remembered(log, address, now), {j, k});
    } else if Admits(log, address, now) {
      FirstIsForgotten(log, i, j, k, address, now);
    }
  }

  // ---------------------------------------------------------------- the table

  datatype Entry = Entry(address: string, times: seq<real>)

  // The log positions of the attempts in an entry's queue.
  ghost predicate Locates(log: Log, entry: Entry, at: seq<nat>) {
    && |entry.times| == |at|
    && (forall i | 0 <= i < |at| :: at[i] < |log| && log[at[i]] == Attempt(entry.address, entry.times[i]))
    && (forall i, j | 0 <= i < j < |at| :: at[i] < at[j])
  }

  ghost function Last(at: seq<nat>): nat
    requires at != []
  {
    at[|at| - 1]
  }

  // Distinct addresses, least recently admitted first.
  ghost predicate Table(log: Log, table: seq<Entry>, at: seq<seq<nat>>) {
    && |table| == |at|
    && (forall p | 0 <= p < |table| :: Locates(log, table[p], at[p]) && at[p] != [])
    && (forall p, q | 0 <= p < q < |table| :: table[p].address != table[q].address && Last(at[p]) < Last(at[q]))
  }

  // The address of attempt k is in the table, with no last attempt before k.
  ghost predicate Listed(log: Log, table: seq<Entry>, at: seq<seq<nat>>, k: nat)
    requires Table(log, table, at) && k < |log|
  {
    exists p :: 0 <= p < |table| && table[p].address == log[k].address && k <= Last(at[p])
  }

  // Nothing admitted since the oldest entry's last attempt is missing.
  ghost predicate Current(log: Log, table: seq<Entry>, at: seq<seq<nat>>)
    requires Table(log, table, at)
  {
    forall k: nat {:trigger Listed(log, table, at, k)} | k < |log| && (table != [] ==> Last(at[0]) <= k) ::
      Listed(log, table, at, k)
  }

  // No queue reaches back over a gap.
  ghost predicate Whole(log: Log, table: seq<Entry>, at: seq<seq<nat>>)
    requires Table(log, table, at)
  {
    forall p, m: nat {:trigger at[p], Gap(log, m)}
      | 0 <= p < |table| && at[p][0] <= m < Last(at[p]) && log[m].address == table[p].address :: !Gap(log, m)
  }

  ghost predicate Tracks(log: Log, table: seq<Entry>, at: seq<seq<nat>>) {
    Table(log, table, at) && Current(log, table, at) && Whole(log, table, at)
  }

  ghost predicate Held(at: seq<seq<nat>>, e: nat) {
    exists p :: 0 <= p < |at| && e in at[p]
  }

  // What is recent and not forgotten is still in a queue.
  ghost predicate Covered(log: Log, at: seq<seq<nat>>, now: real) {
    forall e: nat {:trigger Held(at, e)} | e < |log| && log[e].time > now - WINDOW && !Forgotten(log, e) ::
      Held(at, e)
  }

  function Addresses(table: seq<Entry>): set<string> {
    if table == [] then {} else Addresses(table[1..]) + {table[0].address}
  }

  lemma {:induction false} AddressesMean(table: seq<Entry>, address: string)
    ensures address in Addresses(table) <==> exists p :: 0 <= p < |table| && table[p].address == address
  {
    if table != [] {
      AddressesMean(table[1..], address);
      if p :| 0 <= p < |table| && table[p].address == address && p > 0 {
        assert table[1..][p - 1].address == address;
      }
    }
  }

  lemma {:induction false} AddressesSize(table: seq<Entry>)
    requires forall p, q | 0 <= p < q < |table| :: table[p].address != table[q].address
    ensures |Addresses(table)| == |table|
  {
    if table != [] {
      AddressesSize(table[1..]);
      AddressesMean(table[1..], table[0].address);
    }
  }

  lemma LastIsLast(log: Log, table: seq<Entry>, at: seq<seq<nat>>, q: nat)
    requires Tracks(log, table, at) && q < |table|
    ensures forall m | Last(at[q]) < m < |log| :: log[m].address != table[q].address
  {
    forall m | Last(at[q]) < m < |log|
      ensures log[m].address != table[q].address
    {
      assert q > 0 ==> Last(at[0]) < Last(at[q]);
      assert Listed(log, table, at, m);
    }
  }

  // An address has been away for exactly the addresses behind it in the table.
  lemma AwayForTheRest(log: Log, table: seq<Entry>, at: seq<seq<nat>>, q: nat, address: string)
    requires Tracks(log, table, at) && q < |table|
    ensures address in Between(log, Last(at[q])) <==> address in Addresses(table[q + 1..])
  {
    var last, rest := Last(at[q]), table[q + 1..];
    AddressesMean(rest, address);
    if address in Between(log, last) {
      var k: nat :| k < |log| && Away(log, last, k) && log[k].address == address;
      assert q > 0 ==> Last(at[0]) < Last(at[q]);
      assert Listed(log, table, at, k);
      var p :| 0 <= p < |table| && table[p].address == log[k].address && k <= Last(at[p]);
      assert p > q;
      assert rest[p - q - 1].address == address;
    }
    if address in Addresses(rest) {
      var p :| 0 <= p < |rest| && rest[p].address == address;
      var k := Last(at[p + q + 1]);
      assert Locates(log, table[p + q + 1], at[p + q + 1]) && log[k].address == address;
      LastIsLast(log, table, at, q);
      assert Locates(log, table[q], at[q]) && Away(log, last, k);
    }
  }

  lemma AbsenceIsRank(log: Log, table: seq<Entry>, at: seq<seq<nat>>, q: nat)
    requires Tracks(log, table, at) && q < |table|
    ensures |Between(log, Last(at[q]))| == |table| - q - 1
  {
    forall address
      ensures address in Between(log, Last(at[q])) <==> address in Addresses(table[q + 1..])
    {
      AwayForTheRest(log, table, at, q, address);
    }
    assert Between(log, Last(at[q])) == Addresses(table[q + 1..]);
    AddressesSize(table[q + 1..]);
  }

  /** What a table within its bound holds has not been forgotten. */
  lemma HeldIsRemembered(log: Log, table: seq<Entry>, at: seq<seq<nat>>, p: nat, e: nat)
    requires Tracks(log, table, at) && |table| <= ADDRESS_CACHE && p < |table| && e in at[p]
    ensures e < |log| && log[e].address == table[p].address && !Forgotten(log, e)
  {
    assert Locates(log, table[p], at[p]);
    var i :| 0 <= i < |at[p]| && at[p][i] == e;
    assert i > 0 ==> at[p][0] < e;
    LastIsLast(log, table, at, p);
    AbsenceIsRank(log, table, at, p);
    forall m | e <= m < |log| && log[m].address == log[e].address
      ensures !Gap(log, m)
    {
      assert m < Last(at[p]) || m == Last(at[p]);
    }
  }

  /** The oldest entry of an overfull table has been forgotten. */
  lemma OldestIsForgotten(log: Log, table: seq<Entry>, at: seq<seq<nat>>, e: nat)
    requires Tracks(log, table, at) && |table| == ADDRESS_CACHE + 1 && e in at[0]
    ensures e < |log| && Forgotten(log, e)
  {
    assert Locates(log, table[0], at[0]);
    var i :| 0 <= i < |at[0]| && at[0][i] == e;
    AbsenceIsRank(log, table, at, 0);
    assert i < |at[0]| - 1 ==> e < Last(at[0]);
    assert Gap(log, Last(at[0]));
  }

  function Find(table: seq<Entry>, address: string): (p: nat)
    ensures p <= |table|
    ensures p < |table| ==> table[p].address == address
    ensures forall q | 0 <= q < p :: table[q].address != address
  {
    if table == [] || table[0].address == address then 0 else 1 + Find(table[1..], address)
  }

  // ---------------------------------------------------------------- popping old attempts

  // What is left of a queue without the attempts at or before the cutoff.
  ghost predicate Tail(log: Log, at: seq<nat>, left: seq<nat>, now: real) {
    && (forall e | e in at :: e < |log|)
    && (forall e: nat :: e in left <==> e in at && log[e].time > now - WINDOW)
    && (left != [] ==> at != [] && Last(left) == Last(at) && at[0] <= left[0])
  }

  lemma QueueTail(log: Log, entry: Entry, at: seq<nat>, d: nat, now: real)
    requires Locates(log, entry, at) && Sorted(log) && d <= |at|
    requires forall i | 0 <= i < d :: entry.times[i] <= now - WINDOW
    requires d < |at| ==> entry.times[d] > now - WINDOW
    ensures Locates(log, Entry(entry.address, entry.times[d..]), at[d..])
    ensures Tail(log, at, at[d..], now)
  {
    forall i | d <= i < |at|
      ensures log[at[i]].time > now - WINDOW
    {
      assert i > d ==> at[d] < at[i];
      assert log[at[d]].time <= log[at[i]].time;
    }
    forall e: nat
      ensures e in at[d..] <==> e in at && log[e].time > now - WINDOW
    {
      if e in at {
        var i :| 0 <= i < |at| && at[i] == e;
        assert i >= d ==> at[d..][i - d] == e;
      }
    }
  }

  // Attempts at or before the cutoff leave the front of a queue.
  method PopOld(ghost log: Log, entry: Entry, now: real, ghost at: seq<nat>)
    returns (times: seq<real>, ghost left: seq<nat>)
    requires Locates(log, entry, at) && Sorted(log)
    ensures Locates(log, Entry(entry.address, times), left) && Tail(log, at, left, now)
  {
    times := entry.times;
    while times != [] && times[0] <= now - WINDOW
      invariant |times| <= |entry.times| && times == entry.times[|entry.times| - |times|..]
      invariant forall i | 0 <= i < |entry.times| - |times| :: entry.times[i] <= now - WINDOW
      decreases |times|
    {
      times := times[1..];
    }
    QueueTail(log, entry, at, |entry.times| - |times|, now);
    left := at[|entry.times| - |times|..];
  }

  function Elements(at: seq<nat>): set<nat> {
    set e | e in at
  }

  lemma {:induction false} IncreasingSize(at: seq<nat>)
    requires forall i, j | 0 <= i < j < |at| :: at[i] < at[j]
    ensures |Elements(at)| == |at|
  {
    if at != [] {
      var front := at[..|at| - 1];
      IncreasingSize(front);
      assert at == front + [Last(at)];
      assert Elements(at) == Elements(front) + {Last(at)};
    } else {
      assert Elements(at) == {};
    }
  }

  /** What is left of an address's queue is exactly what is remembered of it. */
  lemma QueueIsRemembered(log: Log, table: seq<Entry>, at: seq<seq<nat>>, p: nat, left: seq<nat>, now: real)
    requires Tracks(log, table, at) && Covered(log, at, now) && |table| <= ADDRESS_CACHE && p < |table|
    requires Tail(log, at[p], left, now) && forall i, j | 0 <= i < j < |left| :: left[i] < left[j]
    ensures |Remembered(log, table[p].address, now)| == |left|
  {
    var remembered := Remembered(log, table[p].address, now);
    forall e | e in left
      ensures e in remembered
    {
      HeldIsRemembered(log, table, at, p, e);
    }
    forall e | e in remembered
      ensures e in left
    {
      HeldAtItsAddress(log, table, at, p, e);
    }
    assert remembered == Elements(left);
    IncreasingSize(left);
  }

  lemma HeldAtItsAddress(log: Log, table: seq<Entry>, at: seq<seq<nat>>, p: nat, e: nat)
    requires Table(log, table, at) && p < |table| && e < |log| && log[e].address == table[p].address && Held(at, e)
    ensures e in at[p]
  {
    var q :| 0 <= q < |at| && e in at[q];
    assert Locates(log, table[q], at[q]);
  }

  lemma NothingRemembered(log: Log, table: seq<Entry>, at: seq<seq<nat>>, address: string, now: real)
    requires Table(log, table, at) && Covered(log, at, now)
    requires forall q | 0 <= q < |table| :: table[q].address != address
    ensures Remembered(log, address, now) == {}
  {
    forall e: nat | e < |log| && log[e].address == address
      ensures !Held(at, e)
    {
      forall q | 0 <= q < |at|
        ensures e !in at[q]
      {
        assert Locates(log, table[q], at[q]);
      }
    }
  }

  // ---------------------------------------------------------------- moving and evicting entries

  function Removed<T>(s: seq<T>, p: nat): (r: seq<T>)
    requires p < |s|
    ensures |r| == |s| - 1 && forall i | 0 <= i < |r| :: r[i] == s[if i < p then i else i + 1]
  {
    s[..p] + s[p + 1..]
  }

  function With(left: seq<nat>, k: nat): seq<nat> {
    left + [k]
  }

  // The entry at p, if there is one, gives way to x at the end.
  function Moved<T>(s: seq<T>, p: nat, x: T): (r: seq<T>)
    ensures |r| <= |s| + 1
  {
    (if p < |s| then Removed(s, p) else s) + [x]
  }

  lemma RemovalKeepsTable(log: Log, table: seq<Entry>, at: seq<seq<nat>>, p: nat)
    requires Table(log, table, at) && p < |table|
    ensures Table(log, Removed(table, p), Removed(at, p))
    ensures forall q | 0 <= q < |table| - 1 :: Removed(table, p)[q].address != table[p].address
  {
  }

  lemma AppendKeepsTable(log: Log, table: seq<Entry>, at: seq<seq<nat>>, entry: Entry, left: seq<nat>, now: real)
    requires Table(log, table, at) && Locates(log, entry, left)
    requires forall q | 0 <= q < |table| :: table[q].address != entry.address
    ensures Table(log + [Attempt(entry.address, now)],
                  table + [Entry(entry.address, entry.times + [now])], at + [With(left, |log|)])
  {
  }

  lemma AdmissionKeepsTable(log: Log, table: seq<Entry>, at: seq<seq<nat>>, p: nat, entry: Entry,
                            left: seq<nat>, now: real)
    requires Table(log, table, at) && p == Find(table, entry.address) && Locates(log, entry, left)
    ensures Table(log + [Attempt(entry.address, now)],
                  Moved(table, p, Entry(entry.address, entry.times + [now])), Moved(at, p, With(left, |log|)))
  {
    if p < |table| {
      RemovalKeepsTable(log, table, at, p);
      AppendKeepsTable(log, Removed(table, p), Removed(at, p), entry, left, now);
    } else {
      AppendKeepsTable(log, table, at, entry, left, now);
    }
  }

  lemma FrontIsNoEarlier(log: Log, table: seq<Entry>, at: seq<seq<nat>>, p: nat, queue: seq<nat>)
    requires Table(log, table, at) && queue != [] && Last(queue) == |log|
    ensures at != [] && Moved(at, p, queue)[0] != [] ==> Last(at[0]) <= Last(Moved(at, p, queue)[0])
  {
    if at != [] {
      assert Locates(log, table[0], at[0]);
      assert |at| > 1 ==> Last(at[0]) < Last(at[1]);
    }
  }

  lemma MovedAt<T>(s: seq<T>, p: nat, x: T, q: nat)
    requires q < |s| && q != p
    ensures var r := if q < p then q else q - 1; r < |Moved(s, p, x)| && Moved(s, p, x)[r] == s[q]
  {
  }

  // An attempt on another address is listed as before.
  lemma OthersStayListed(log: Log, table: seq<Entry>, at: seq<seq<nat>>, a: Attempt, p: nat, entry: Entry,
                         queue: seq<nat>, k: nat)
    requires Table(log, table, at) && Table(log + [a], Moved(table, p, entry), Moved(at, p, queue))
    requires k < |log| && Listed(log, table, at, k) && (p < |table| ==> log[k].address != table[p].address)
    ensures Listed(log + [a], Moved(table, p, entry), Moved(at, p, queue), k)
  {
    var q :| 0 <= q < |table| && table[q].address == log[k].address && k <= Last(at[q]);
    MovedAt(table, p, entry, q);
    MovedAt(at, p, queue, q);
    assert (log + [a])[k] == log[k];
  }

  lemma AdmissionKeepsCurrent(log: Log, table: seq<Entry>, at: seq<seq<nat>>, p: nat, entry: Entry,
                              left: seq<nat>, now: real)
    requires Tracks(log, table, at) && p == Find(table, entry.address)
    requires Table(log + [Attempt(entry.address, now)],
                   Moved(table, p, Entry(entry.address, entry.times + [now])), Moved(at, p, With(left, |log|)))
    ensures Current(log + [Attempt(entry.address, now)],
                    Moved(table, p, Entry(entry.address, entry.times + [now])), Moved(at, p, With(left, |log|)))
  {
    var longer := log + [Attempt(entry.address, now)];
    var newTable := Moved(table, p, Entry(entry.address, entry.times + [now]));
    var newAt := Moved(at, p, With(left, |log|));
    var end := |newTable| - 1;
    assert newTable[end].address == entry.address && Last(newAt[end]) == |log|;
    FrontIsNoEarlier(log, table, at, p, With(left, |log|));
    forall k: nat | k < |longer| && Last(newAt[0]) <= k
      ensures Listed(longer, newTable, newAt, k)
    {
      if longer[k].address == entry.address {
        assert newTable[end].address == longer[k].address && k <= Last(newAt[end]);
      } else {
        assert Listed(log, table, at, k);
        OthersStayListed(log, table, at, Attempt(entry.address, now), p, Entry(entry.address, entry.times + [now]),
                         With(left, |log|), k);
      }
    }
  }

  // A later attempt on an address settles the gap after the one before.
  lemma SettledGap(log: Log, a: Attempt, m: nat, next: nat)
    requires m < next <= |log| && (log + [a])[next].address == log[m].address
    ensures Gap(log + [a], m) <==> Gap(log, m)
  {
    BetweenLater(log, a, m);
    assert !Away(log + [a], m, |log|);
    assert Between(log + [a], m) == Between(log, m);
  }

  lemma AdmissionKeepsWhole(log: Log, table: seq<Entry>, at: seq<seq<nat>>, p: nat, entry: Entry,
                            left: seq<nat>, now: real)
    requires Tracks(log, table, at) && |table| <= ADDRESS_CACHE
    requires p == Find(table, entry.address) && Locates(log, entry, left)
    requires if p < |at| then Tail(log, at[p], left, now) else left == []
    requires Table(log + [Attempt(entry.address, now)],
                   Moved(table, p, Entry(entry.address, entry.times + [now])), Moved(at, p, With(left, |log|)))
    ensures Whole(log + [Attempt(entry.address, now)],
                  Moved(table, p, Entry(entry.address, entry.times + [now])), Moved(at, p, With(left, |log|)))
  {
    var a := Attempt(entry.address, now);
    var newTable := Moved(table, p, Entry(entry.address, entry.times + [now]));
    var newAt := Moved(at, p, With(left, |log|));
    var end := |newTable| - 1;
    forall q, m: nat | 0 <= q < |newTable| && newAt[q][0] <= m < Last(newAt[q])
                  && (log + [a])[m].address == newTable[q].address
      ensures !Gap(log + [a], m)
    {
      if q < end {
        var r := if q < p then q else q + 1;
        assert newAt[q] == at[r] && newTable[q] == table[r] && Locates(log, table[r], at[r]);
        SettledGap(log, a, m, Last(at[r]));
      } else {
        assert newAt[q] == With(left, |log|);
        SettledGap(log, a, m, |log|);
        NoGapSoFar(log, table, at, p, m);
      }
    }
  }

  lemma NoGapSoFar(log: Log, table: seq<Entry>, at: seq<seq<nat>>, p: nat, m: nat)
    requires Tracks(log, table, at) && |table| <= ADDRESS_CACHE && p < |table|
    requires at[p][0] <= m < |log| && log[m].address == table[p].address
    ensures !Gap(log, m)
  {
    LastIsLast(log, table, at, p);
    AbsenceIsRank(log, table, at, p);
    assert m < Last(at[p]) || m == Last(at[p]);
  }

  lemma AdmissionKeepsCover(log: Log, at: seq<seq<nat>>, p: nat, left: seq<nat>, a: Attempt)
    requires Covered(log, at, a.time) && p <= |at|
    requires p < |at| ==> Tail(log, at[p], left, a.time)
    ensures Covered(log + [a], Moved(at, p, With(left, |log|)), a.time)
  {
    var longer := log + [a];
    var others := if p < |at| then Removed(at, p) else at;
    var after := others + [With(left, |log|)];
    assert after[|others|] == With(left, |log|);
    forall e: nat | e < |longer| && longer[e].time > a.time - WINDOW && !Forgotten(longer, e)
      ensures Held(after, e)
    {
      if e < |log| {
        assert longer[e] == log[e];
        assert !Forgotten(log, e) by {
          if Forgotten(log, e) {
            ForgottenStays(log, a, e);
          }
        }
        HeldElsewhere(at, p, left, others, e);
        HeldLonger(others, With(left, |log|), e);
      } else {
        assert e in after[|others|];
      }
    }
  }

  lemma HeldLonger(others: seq<seq<nat>>, queue: seq<nat>, e: nat)
    ensures Held(others, e) || e in queue ==> Held(others + [queue], e)
  {
    var after := others + [queue];
    assert after[|others|] == queue;
    if Held(others, e) {
      var q :| 0 <= q < |others| && e in others[q];
      assert after[q] == others[q];
    }
  }

  lemma HeldElsewhere(at: seq<seq<nat>>, p: nat, left: seq<nat>, others: seq<seq<nat>>, e: nat)
    requires Held(at, e) && p <= |at| && others == if p < |at| then Removed(at, p) else at
    ensures Held(others, e) || (p < |at| && e in at[p])
  {
    var q :| 0 <= q < |at| && e in at[q];
    if q < p {
      assert others[q] == at[q];
    } else if q > p {
      assert others[q - 1] == at[q];
    }
  }

  lemma EvictionKeepsTracks(log: Log, table: seq<Entry>, at: seq<seq<nat>>)
    requires Tracks(log, table, at) && |table| > 1
    ensures Tracks(log, table[1..], at[1..])
  {
    var newTable, newAt := table[1..], at[1..];
    assert forall q | 0 <= q < |newTable| :: newTable[q] == table[q + 1] && newAt[q] == at[q + 1];
    forall k: nat | k < |log| && Last(newAt[0]) <= k
      ensures Listed(log, newTable, newAt, k)
    {
      assert Last(at[0]) < Last(at[1]);
      assert Listed(log, table, at, k);
      var q :| 0 <= q < |table| && table[q].address == log[k].address && k <= Last(at[q]);
      assert newTable[q - 1] == table[q];
    }
  }

  lemma EvictionKeepsCover(log: Log, table: seq<Entry>, at: seq<seq<nat>>, now: real)
    requires Tracks(log, table, at) && |table| == ADDRESS_CACHE + 1 && Covered(log, at, now)
    ensures Covered(log, at[1..], now)
  {
    forall e: nat | e < |log| && log[e].time > now - WINDOW && !Forgotten(log, e)
      ensures Held(at[1..], e)
    {
      assert Held(at, e);
      var p :| 0 <= p < |at| && e in at[p];
      if p == 0 {
        OldestIsForgotten(log, table, at, e);
      } else {
        assert at[1..][p - 1] == at[p];
      }
    }
  }

  ghost predicate Fit(log: Log, table: seq<Entry>, at: seq<seq<nat>>, now: real) {
    && Tracks(log, table, at) && Covered(log, at, now)
    && Sorted(log) && (forall i | 0 <= i < |log| :: log[i].time <= now)
    && Throttled(log)
  }

  class PairingThrottle {
    var table: seq<Entry>
    ghost var at: seq<seq<nat>>
    ghost var log: Log
    ghost var clock: real

    ghost predicate Fits(now: real)
      reads `table, `at, `log
    {
      Fit(log, table, at, now)
    }

    ghost predicate Valid()
      reads `table, `at, `log, `clock
    {
      Fits(clock) && |table| <= ADDRESS_CACHE
    }

    constructor (now: real)
      ensures Valid() && log == [] && clock == now
    {
      table, at, log, clock := [], [], [], now;
    }

    // The entry at p keeps what PopOld left of its queue.
    method Refuse(p: nat, times: seq<real>, now: real, ghost left: seq<nat>)
      requires Valid() && clock <= now && p < |table|
      requires Locates(log, Entry(table[p].address, times), left) && left != [] && Tail(log, at[p], left, now)
      modifies this
      ensures Valid() && clock == now && log == old(log)
    {
      RefusalFits(log, table, at, p, times, left, clock, now);
      clock := now;
      table, at := table[p := Entry(table[p].address, times)], at[p := left];
    }

    // The address moves to the end with its new attempt.
    method MoveToEnd(p: nat, address: string, times: seq<real>, now: real, ghost left: seq<nat>)
      requires Valid() && clock <= now && p == Find(table, address)
      requires Locates(log, Entry(address, times), left)
      requires if p < |at| then Tail(log, at[p], left, now) else left == []
      requires Admits(log, address, now)
      modifies this
      ensures Fits(now) && clock == now && log == old(log) + [Attempt(address, now)]
      ensures |table| <= ADDRESS_CACHE + 1
    {
      AdmissionFits(log, table, at, p, Entry(address, times), left, clock, now);
      clock := now;
      table := Moved(table, p, Entry(address, times + [now]));
      at := Moved(at, p, With(left, |log|));
      log := log + [Attempt(address, now)];
    }

    // The oldest addresses go until the table is within its bound.
    method Evict(now: real)
      requires Fits(now) && clock == now && |table| <= ADDRESS_CACHE + 1
      modifies `table, `at
      ensures Valid()
    {
      while |table| > ADDRESS_CACHE
        invariant Fits(now) && |table| <= ADDRESS_CACHE + 1
        decreases |table|
      {
        EvictionKeepsTracks(log, table, at);
        EvictionKeepsCover(log, table, at, now);
        table, at := table[1..], at[1..];
      }
    }

    /** Admits exactly the attempts that find fewer than three remembered ones in the window. */
    method ConsumeAttempt(address: string, now: real) returns (admitted: bool)
      requires Valid() && clock <= now
      modifies this
      ensures Valid() && clock == now
      ensures admitted <==> Admits(old(log), address, now)
      ensures log == if admitted then old(log) + [Attempt(address, now)] else old(log)
    {
      var p := Find(table, address);
      LaterCovers(log, at, clock, now);
      if p < |table| {
        var times, left := PopOld(log, table[p], now, at[p]);
        QueueIsRemembered(log, table, at, p, left, now);
        if |times| >= LIMIT {
          Refuse(p, times, now, left);
          return false;
        }
        MoveToEnd(p, address, times, now, left);
      } else {
        NothingRemembered(log, table, at, address, now);
        MoveToEnd(p, address, [], now, []);
      }
      Evict(now);
      return true;
    }
  }

  lemma AdmissionFits(log: Log, table: seq<Entry>, at: seq<seq<nat>>, p: nat, entry: Entry, left: seq<nat>,
                      clock: real, now: real)
    requires Fit(log, table, at, clock) && |table| <= ADDRESS_CACHE && clock <= now
    requires p == Find(table, entry.address) && Locates(log, entry, left) && Admits(log, entry.address, now)
    requires if p < |at| then Tail(log, at[p], left, now) else left == []
    ensures Fit(log + [Attempt(entry.address, now)],
                Moved(table, p, Entry(entry.address, entry.times + [now])), Moved(at, p, With(left, |log|)), now)
  {
    LaterCovers(log, at, clock, now);
    AdmissionKeepsCover(log, at, p, left, Attempt(entry.address, now));
    AdmissionKeepsTable(log, table, at, p, entry, left, now);
    AdmissionKeepsCurrent(log, table, at, p, entry, left, now);
    AdmissionKeepsWhole(log, table, at, p, entry, left, now);
    ThrottledNext(log, Attempt(entry.address, now));
  }

  lemma LaterCovers(log: Log, at: seq<seq<nat>>, now: real, later: real)
    requires Covered(log, at, now) && now <= later
    ensures Covered(log, at, later)
  {
  }

  lemma ThrottledNext(log: Log, a: Attempt)
    requires Throttled(log) && Admits(log, a.address, a.time)
    ensures Throttled(log + [a])
  {
    var longer := log + [a];
    forall l | 0 <= l < |longer|
      ensures Admits(longer[..l], longer[l].address, longer[l].time)
    {
      if l < |log| {
        assert longer[..l] == log[..l];
      } else {
        assert longer[..l] == log;
      }
    }
  }

  lemma RefusalFits(log: Log, table: seq<Entry>, at: seq<seq<nat>>, p: nat, times: seq<real>, left: seq<nat>,
                    clock: real, now: real)
    requires Fit(log, table, at, clock) && clock <= now && p < |table|
    requires Locates(log, Entry(table[p].address, times), left) && left != [] && Tail(log, at[p], left, now)
    ensures Fit(log, table[p := Entry(table[p].address, times)], at[p := left], now)
  {
    LaterCovers(log, at, clock, now);
    QueueShrinks(log, at, p, left, now);
    ShrunkTable(log, table, at, p, times, left, now);
  }

  lemma ShrunkTable(log: Log, table: seq<Entry>, at: seq<seq<nat>>, p: nat, times: seq<real>, left: seq<nat>,
                    now: real)
    requires Tracks(log, table, at) && p < |table|
    requires Locates(log, Entry(table[p].address, times), left) && left != [] && Tail(log, at[p], left, now)
    ensures Tracks(log, table[p := Entry(table[p].address, times)], at[p := left])
  {
    var newTable, newAt := table[p := Entry(table[p].address, times)], at[p := left];
    assert forall q | 0 <= q < |table| ::
        newTable[q].address == table[q].address && Last(newAt[q]) == Last(at[q]) && at[q][0] <= newAt[q][0];
    assert Table(log, newTable, newAt);
    forall k: nat | k < |log| && Last(newAt[0]) <= k
      ensures Listed(log, newTable, newAt, k)
    {
      assert Listed(log, table, at, k);
      var q :| 0 <= q < |table| && table[q].address == log[k].address && k <= Last(at[q]);
      assert newTable[q].address == log[k].address;
    }
  }

  lemma QueueShrinks(log: Log, at: seq<seq<nat>>, p: nat, left: seq<nat>, now: real)
    requires Covered(log, at, now) && p < |at| && Tail(log, at[p], left, now)
    ensures Covered(log, at[p := left], now)
  {
    forall e: nat | e < |log| && log[e].time > now - WINDOW && !Forgotten(log, e)
      ensures Held(at[p := left], e)
    {
      assert Held(at, e);
      var q :| 0 <= q < |at| && e in at[q];
      assert at[p := left][q] == if q == p then left else at[q];
    }
  }

  // ---------------------------------------------------------------- the throttle does forget

  /** Every throttled history happens: offered in order, each of its attempts is admitted. */
  method Replay(history: Log, start: real) returns (throttle: PairingThrottle)
    requires Sorted(history) && Throttled(history) && forall i | 0 <= i < |history| :: start <= history[i].time
    ensures fresh(throttle) && throttle.Valid() && throttle.log == history
  {
    throttle := new PairingThrottle(start);
    for i := 0 to |history|
      invariant fresh(throttle) && throttle.Valid() && throttle.log == history[..i]
      invariant i < |history| ==> throttle.clock <= history[i].time
    {
      assert history[..i] + [history[i]] == history[..i + 1];
      var admitted := throttle.ConsumeAttempt(history[i].address, history[i].time);
    }
  }

  function Name(k: nat): string {
    seq(k, _ => 'a')
  }

  // The names of the lengths from up to but not including from + n.
  function Names(from: nat, n: nat): (names: set<string>)
    ensures |names| == n && forall s :: s in names <==> from <= |s| < from + n && s == Name(|s|)
  {
    if n == 0 then {} else Names(from, n - 1) + {Name(from + n - 1)}
  }

  function Visitor(n: nat, m: nat, k: nat): string {
    if k == 0 || k == n + 1 || k == n + m + 2 then "" else Name(k)
  }

  // At one instant: the empty address, n others, the empty address, m others, the empty address, r others.
  function Visits(n: nat, m: nat, r: nat): Log {
    seq(n + m + r + 3, k requires 0 <= k => Attempt(Visitor(n, m, k), 0.0))
  }

  lemma StretchSize(log: Log, p: nat, n: nat)
    requires p + n < |log| && log[p].address == ""
    requires forall k | p < k <= p + n :: log[k].address == Name(k)
    requires p + n + 1 < |log| ==> log[p + n + 1].address == ""
    ensures |Between(log, p)| == n
  {
    forall s
      ensures s in Between(log, p) <==> s in Names(p + 1, n)
    {
      if s in Names(p + 1, n) {
        assert Away(log, p, |s|) && log[|s|].address == s;
      }
    }
    assert Between(log, p) == Names(p + 1, n);
  }

  lemma VisitsAreThrottled(n: nat, m: nat, r: nat)
    ensures Throttled(Visits(n, m, r))
  {
    var log := Visits(n, m, r);
    forall l | 0 <= l < |log|
      ensures Admits(log[..l], log[l].address, log[l].time)
    {
      SmallerSet(Remembered(log[..l], log[l].address, log[l].time), {0, n + 1});
    }
  }

  lemma VisitGaps(n: nat, m: nat, r: nat)
    ensures |Between(Visits(n, m, r), 0)| == n && |Between(Visits(n, m, r), n + 1)| == m
    ensures |Between(Visits(n, m, r), n + m + 2)| == r
  {
    var log := Visits(n, m, r);
    assert forall k | 0 <= k < |log| :: log[k].address == Visitor(n, m, k);
    StretchSize(log, 0, n);
    StretchSize(log, n + 1, m);
    StretchSize(log, n + m + 2, r);
  }

  /** After three visits of one address within the window a fourth is admitted exactly when 128 others came
      after one of them before the next: 128 in one gap suffice, any number spread over shorter gaps do not. */
  lemma CrowdMustComeAtOnce(n: nat, m: nat, r: nat)
    ensures Sorted(Visits(n, m, r)) && Throttled(Visits(n, m, r))
    ensures Admits(Visits(n, m, r), "", 0.0) <==> n >= ADDRESS_CACHE || m >= ADDRESS_CACHE || r >= ADDRESS_CACHE
  {
    var log := Visits(n, m, r);
    VisitsAreThrottled(n, m, r);
    VisitGaps(n, m, r);
    FourthIsExact(log, 0, n + 1, n + m + 2, 0.0);
  }
}
