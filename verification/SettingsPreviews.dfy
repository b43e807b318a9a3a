/**
Gateway settings previews: a bounded store of short-lived plans, each consumed by at most one apply,
under any interleaving of previews, applies, timers, cancellations and invalidation.
*/
module SettingsPreviews {
  import opened Basics

  const TTL := 300.0
  const MAX_PREVIEWS := 64

  // The changes of a plan stand for their validated form.
  datatype Preview = Preview(
    id: nat, gatewayId: string, revision: string, expires: real, critical: bool, changes: map<string, string>)

  // What a live read says, if it succeeded.
  datatype Snapshot = Snapshot(revision: string, writable: bool)

  // ---------------------------------------------------------------- the store, in insertion order

  // Which previews a clean-up keeps.
  datatype Rule = LiveAt(now: real) | OtherThan(id: nat) | OtherGateway(gatewayId: string) {
    predicate Keeps(p: Preview) {
      match this
      case LiveAt(now) => p.expires > now
      case OtherThan(id) => p.id != id
      case OtherGateway(gatewayId) => p.gatewayId != gatewayId
    }
  }

  function Filter(s: seq<Preview>, rule: Rule): (r: seq<Preview>)
    ensures forall p :: p in r <==> p in s && rule.Keeps(p)
    ensures |r| <= |s|
    ensures (forall p | p in s :: rule.Keeps(p)) ==> r == s
  {
    if s == [] then []
    else if rule.Keeps(s[0]) then [s[0]] + Filter(s[1..], rule)
    else Filter(s[1..], rule)
  }

  // One preview per gateway, one per id, in the order in which they expire.
  predicate Ordered(a: Preview, b: Preview) {
    a.id != b.id && a.gatewayId != b.gatewayId && a.expires <= b.expires
  }

  ghost predicate Pairwise(s: seq<Preview>) {
    forall i, j | 0 <= i < j < |s| :: Ordered(s[i], s[j])
  }

  lemma {:induction false} FilterKeepsPairs(s: seq<Preview>, rule: Rule)
    requires Pairwise(s)
    ensures Pairwise(Filter(s, rule))
  {
    if s != [] {
      FilterKeepsPairs(s[1..], rule);
      var rest := Filter(s[1..], rule);
      forall j | 0 <= j < |rest|
        ensures Ordered(s[0], rest[j])
      {
        assert rest[j] in s[1..];
        var k :| 0 <= k < |s| - 1 && s[1..][k] == rest[j];
      }
    }
  }

  function Live(s: seq<Preview>, now: real): seq<Preview> {
    Filter(s, LiveAt(now))
  }

  function WithoutId(s: seq<Preview>, id: nat): seq<Preview> {
    Filter(s, OtherThan(id))
  }

  function WithoutGateway(s: seq<Preview>, gatewayId: string): seq<Preview> {
    Filter(s, OtherGateway(gatewayId))
  }

  // The first of the previews that expire earliest.
  function Oldest(s: seq<Preview>): (i: nat)
    requires s != []
    ensures i < |s|
    ensures forall j | 0 <= j < |s| :: s[i].expires <= s[j].expires && (j < i ==> s[i].expires < s[j].expires)
  {
    if |s| == 1 then 0
    else
      var i := Oldest(s[..|s| - 1]);
      if s[|s| - 1].expires < s[i].expires then |s| - 1 else i
  }

  // The earliest expiring previews go until the store is within its bound.
  function Trimmed(s: seq<Preview>): seq<Preview>
    decreases |s|
  {
    if |s| <= MAX_PREVIEWS then s
    else
      var i := Oldest(s);
      Trimmed(DropAt(s, i))
  }

  function DropAt(s: seq<Preview>, i: nat): (r: seq<Preview>)
    requires i < |s|
    ensures |r| == |s| - 1
  {
    s[..i] + s[i + 1..]
  }

  lemma DropAtMembers(s: seq<Preview>, i: nat, p: Preview)
    requires i < |s|
    ensures p in DropAt(s, i) ==> p in s
    ensures p in s ==> p == s[i] || p in DropAt(s, i)
  {
    assert s == s[..i] + [s[i]] + s[i + 1..];
  }

  /** A trim leaves as many as fit, and nothing that goes expires after anything that stays. */
  lemma {:induction false} TrimKeepsTheLatest(s: seq<Preview>)
    ensures |Trimmed(s)| == if |s| <= MAX_PREVIEWS then |s| else MAX_PREVIEWS
    ensures forall p | p in Trimmed(s) :: p in s
    ensures forall p, q | p in Trimmed(s) && q in s && q !in Trimmed(s) :: q.expires <= p.expires
    decreases |s|
  {
    if |s| > MAX_PREVIEWS {
      TrimKeepsTheLatest(DropAt(s, Oldest(s)));
      forall p
        ensures p in DropAt(s, Oldest(s)) ==> p in s
        ensures p in s ==> p == s[Oldest(s)] || p in DropAt(s, Oldest(s))
      {
        DropAtMembers(s, Oldest(s), p);
      }
    }
  }

  function Find(s: seq<Preview>, id: nat): Option<Preview> {
    if s == [] then None else if s[0].id == id then Some(s[0]) else Find(s[1..], id)
  }

  function Stored(s: seq<Preview>, p: Preview, now: real): seq<Preview> {
    Trimmed(WithoutGateway(Live(s, now), p.gatewayId) + [p])
  }

  ghost predicate StoreInv(s: seq<Preview>, now: real) {
    && |s| <= MAX_PREVIEWS && Pairwise(s)
    && forall p | p in s :: p.expires <= now + TTL
  }

  lemma {:induction false} FindMeans(s: seq<Preview>, id: nat)
    ensures Find(s, id).Some? ==> Find(s, id).value in s && Find(s, id).value.id == id
    ensures Find(s, id).None? ==> forall p | p in s :: p.id != id
  {
    if s != [] && s[0].id != id {
      FindMeans(s[1..], id);
    }
  }

  // In a store that is ordered by expiry the first entry is the oldest.
  lemma OldestIsFirst(s: seq<Preview>)
    requires Pairwise(s) && s != []
    ensures Oldest(s) == 0
  {
  }

  lemma AppendKeepsPairs(kept: seq<Preview>, p: Preview)
    requires Pairwise(kept) && forall q | q in kept :: Ordered(q, p)
    ensures Pairwise(kept + [p])
  {
  }

  // One preview too many: the first goes.
  lemma TrimDropsFirst(s: seq<Preview>)
    requires Pairwise(s) && |s| <= MAX_PREVIEWS + 1
    ensures Trimmed(s) == if |s| <= MAX_PREVIEWS then s else s[1..]
  {
    if |s| > MAX_PREVIEWS {
      OldestIsFirst(s);
      assert s[..0] + s[1..] == s[1..];
    }
  }

  /** A new preview keeps the store in bounds, replaces its gateway's old one and survives its own trim;
      what is dropped was expired, the same gateway's, or the oldest of a full store. */
  lemma StoringKeepsInv(s: seq<Preview>, p: Preview, now: real)
    requires StoreInv(s, now) && p.expires == now + TTL
    requires forall q | q in s :: q.id != p.id
    ensures StoreInv(Stored(s, p, now), now) && p in Stored(s, p, now)
    ensures forall q | q in Stored(s, p, now) :: q == p || (q in s && q.gatewayId != p.gatewayId && q.expires > now)
    ensures |s| < MAX_PREVIEWS ==>
              forall q | q in s && q.gatewayId != p.gatewayId && q.expires > now :: q in Stored(s, p, now)
  {
    FilterKeepsPairs(s, LiveAt(now));
    FilterKeepsPairs(Live(s, now), OtherGateway(p.gatewayId));
    AppendTrimmed(WithoutGateway(Live(s, now), p.gatewayId), p);
  }

  lemma TailKeepsPairs(s: seq<Preview>)
    requires Pairwise(s) && s != []
    ensures Pairwise(s[1..]) && forall q | q in s[1..] :: q in s
  {
    assert forall i | 0 <= i < |s| - 1 :: s[1..][i] == s[i + 1];
  }

  lemma AppendTrimmed(kept: seq<Preview>, p: Preview)
    requires Pairwise(kept) && |kept| <= MAX_PREVIEWS && forall q | q in kept :: Ordered(q, p)
    ensures var r := Trimmed(kept + [p]);
            && Pairwise(r) && |r| <= MAX_PREVIEWS && p in r
            && (forall q | q in r :: q == p || q in kept)
            && (|kept| < MAX_PREVIEWS ==> forall q | q in kept :: q in r)
  {
    var all := kept + [p];
    AppendKeepsPairs(kept, p);
    TrimDropsFirst(all);
    assert forall q | q in all :: q in kept || q == p;
    assert all[|kept|] == p;
    if |kept| == MAX_PREVIEWS {
      TailKeepsPairs(all);
      assert all[1..][|kept| - 1] == p;
    } else {
      assert forall q | q in kept :: q in all;
    }
  }

  // ---------------------------------------------------------------- the manager

  datatype Request = Request(gatewayId: string, revision: string, previewId: nat, confirmCritical: bool)

  // One adapter call: the preview it was made for, the request, and what was read just before.
  datatype Call = Call(preview: Preview, request: Request, consumedAt: real, current: Snapshot)

  datatype Pending = Pending(preview: Preview, request: Request, consumedAt: real)

  datatype State = State(
    previews: seq<Preview>,
    pending: map<nat, Pending>,        // applies between consuming their preview and calling the adapter
    created: seq<Preview>,             // every preview ever stored
    calls: seq<Call>,
    clock: real)

  datatype Event =
    // A preview after its live read; token is the new id, critical and changes the validator's answer.
    | Previewed(gatewayId: string, revision: string, snapshot: Snapshot, token: nat, critical: bool,
                changes: Option<map<string, string>>, now: real)
    | ApplyBegins(operation: nat, request: Request, now: real, gatewayKnown: bool)
    // An apply after its live read; None when the read failed or the operation was cancelled.
    | ApplyRead(operation: nat, current: Option<Snapshot>)
    | Expired(id: nat)
    | Invalidated
    | CleanedUp(now: real)

  const START := State([], map[], [], [], 0.0)

  // Tokens are unique, operations have their own tasks, and the monotonic clock does not go back.
  predicate Possible(s: State, e: Event) {
    match e
    case Previewed(_, _, _, token, _, _, now) => s.clock <= now && forall p | p in s.created :: p.id != token
    case ApplyBegins(operation, _, now, _) => s.clock <= now && operation !in s.pending
    case CleanedUp(now) => s.clock <= now
    case _ => true
  }

  datatype Refusal = PreviewExpired | ConfirmationRequired | GatewayNotFound

  // Whether a consumed preview may go on to the adapter.
  function Checked(p: Option<Preview>, r: Request, gatewayKnown: bool): Option<Refusal> {
    if p.None? || p.value.gatewayId != r.gatewayId || p.value.revision != r.revision then Some(PreviewExpired)
    else if p.value.critical && !r.confirmCritical then Some(ConfirmationRequired)
    else if !gatewayKnown then Some(GatewayNotFound)
    else None
  }

  function OnPreview(s: State, e: Event): State
    requires e.Previewed?
  {
    if !e.snapshot.writable || e.snapshot.revision != e.revision || e.changes.None? then s
    else
      var p := Preview(e.token, e.gatewayId, e.snapshot.revision, e.now + TTL, e.critical, e.changes.value);
      s.(previews := Stored(s.previews, p, e.now), created := s.created + [p], clock := e.now)
  }

  // Whatever the outcome, the preview is consumed.
  function OnApply(s: State, e: Event): State
    requires e.ApplyBegins?
  {
    var live := Live(s.previews, e.now);
    var found := Find(live, e.request.previewId);
    var r := s.(previews := WithoutId(live, e.request.previewId), clock := e.now);
    if Checked(found, e.request, e.gatewayKnown).Some? then r
    else r.(pending := s.pending[e.operation := Pending(found.value, e.request, e.now)])
  }

  function OnRead(s: State, e: Event): State
    requires e.ApplyRead?
  {
    if e.operation !in s.pending then s
    else
      var op := s.pending[e.operation];
      var r := s.(pending := s.pending - {e.operation});
      if e.current.None? || e.current.value.revision != op.preview.revision || !e.current.value.writable then r
      else r.(calls := s.calls + [Call(op.preview, op.request, op.consumedAt, e.current.value)])
  }

  function Step(s: State, e: Event): State {
    if !Possible(s, e) then s
    else
      match e
      case Previewed(_, _, _, _, _, _, _) => OnPreview(s, e)
      case ApplyBegins(_, _, _, _) => OnApply(s, e)
      case ApplyRead(_, _) => OnRead(s, e)
      case Expired(id) => s.(previews := WithoutId(s.previews, id))
      case Invalidated => s.(previews := [])
      case CleanedUp(now) => s.(previews := Live(s.previews, now), clock := now)
  }

  function Run(s: State, events: seq<Event>): State
    decreases |events|
  {
    if events == [] then s else Run(Step(s, events[0]), events[1..])
  }

  // ---------------------------------------------------------------- what each step does, exactly

  // The stored preview of that id, if it has not expired.
  ghost predicate IsLive(s: seq<Preview>, id: nat, now: real, p: Preview) {
    p in s && p.id == id && now < p.expires
  }

  /** Ids in the store are distinct, so there is at most one such preview, and the look-up after the clean-up
      finds it. */
  lemma FoundIsLive(s: seq<Preview>, id: nat, now: real)
    requires Pairwise(s)
    ensures var found := Find(Live(s, now), id);
            && (found.Some? ==> IsLive(s, id, now, found.value))
            && (forall p | IsLive(s, id, now, p) :: found == Some(p))
  {
    FindMeans(Live(s, now), id);
    forall p | IsLive(s, id, now, p)
      ensures Find(Live(s, now), id) == Some(p)
    {
      SameIdSamePreview(s, p, Find(Live(s, now), id).value);
    }
  }

  lemma DistinctIds(s: seq<Preview>, i: nat, j: nat)
    requires Pairwise(s) && i < |s| && j < |s| && s[i].id == s[j].id
    ensures i == j
  {
  }

  lemma SameIdSamePreview(s: seq<Preview>, p: Preview, q: Preview)
    requires Pairwise(s) && p in s && q in s && p.id == q.id
    ensures p == q
  {
    var i :| 0 <= i < |s| && s[i] == p;
    var j :| 0 <= j < |s| && s[j] == q;
    DistinctIds(s, i, j);
  }

  // The request names the preview's own gateway and revision.
  predicate Names(r: Request, p: Preview) {
    p.id == r.previewId && p.gatewayId == r.gatewayId && p.revision == r.revision
  }

  /** An apply goes on to its live read exactly when the store holds its preview unexpired, gateway and revision are
      the preview's, a critical preview was confirmed, and the gateway is known.  Either way the preview is gone and
      whatever had expired with it; nothing is sent yet. */
  lemma ApplyIsExact(s: State, e: Event)
    requires Pairwise(s.previews) && e.ApplyBegins? && Possible(s, e)
    ensures var t := Step(s, e);
            e.operation in t.pending <==>
              exists p :: IsLive(s.previews, e.request.previewId, e.now, p) && Names(e.request, p)
                          && (p.critical ==> e.request.confirmCritical) && e.gatewayKnown
    ensures var t := Step(s, e);
            && (e.operation in t.pending ==>
                  && IsLive(s.previews, e.request.previewId, e.now, t.pending[e.operation].preview)
                  && t.pending == s.pending[e.operation := Pending(t.pending[e.operation].preview, e.request, e.now)])
            && (e.operation !in t.pending ==> t.pending == s.pending)
            && (forall p :: p in t.previews <==> p in s.previews && e.now < p.expires && p.id != e.request.previewId)
            && t.created == s.created && t.calls == s.calls && t.clock == e.now
  {
    FoundIsLive(s.previews, e.request.previewId, e.now);
  }

  /** A plan is sent exactly when the live read of a pending apply shows a writable radio at the preview's revision;
      the apply is over either way. */
  lemma ReadIsExact(s: State, operation: nat, current: Option<Snapshot>)
    requires operation in s.pending
    ensures var t := Step(s, ApplyRead(operation, current)); var op := s.pending[operation];
            && t.pending == s.pending - {operation} && t.previews == s.previews && t.created == s.created
            && t.calls == s.calls + (if current == Some(Snapshot(op.preview.revision, true))
                                     then [Call(op.preview, op.request, op.consumedAt, current.value)] else [])
  {
  }

  // The preview that an event asks for.
  function Wanted(e: Event): Preview
    requires e.Previewed? && e.changes.Some?
  {
    Preview(e.token, e.gatewayId, e.revision, e.now + 300.0, e.critical, e.changes.value)
  }

  /** A preview is stored exactly when its live read shows a writable radio at the revision asked for and the changes
      are valid. */
  lemma PreviewIsStored(s: State, e: Event)
    requires e.Previewed? && Possible(s, e)
    ensures Step(s, e)
         == if e.snapshot == Snapshot(e.revision, true) && e.changes.Some?
            then s.(previews := Stored(s.previews, Wanted(e), e.now), created := s.created + [Wanted(e)],
                    clock := e.now)
            else s
  {
  }

  /** Then it expires five minutes later, replaces its gateway's old one, and drops none of the others that are
      unexpired unless the store is full. */
  lemma StoringIsExact(s: seq<Preview>, p: Preview, now: real)
    requires StoreInv(s, now) && p.expires == now + 300.0
    requires forall q | q in s :: q.id != p.id
    ensures p in Stored(s, p, now) && |Stored(s, p, now)| <= 64
    ensures forall q | q in Stored(s, p, now) && q != p :: q in s && q.gatewayId != p.gatewayId && now < q.expires
    ensures |s| < 64 ==>
              forall q | q in s && q.gatewayId != p.gatewayId && now < q.expires :: q in Stored(s, p, now)
  {
    StoringKeepsInv(s, p, now);
  }

  /** A timer removes its own preview, invalidation all of them, and a clean-up exactly the expired ones. */
  lemma RemovalIsExact(s: State, id: nat, now: real)
    ensures forall p :: p in Step(s, Expired(id)).previews <==> p in s.previews && p.id != id
    ensures Step(s, Invalidated).previews == []
    ensures s.clock <= now ==>
              forall p :: p in Step(s, CleanedUp(now)).previews <==> p in s.previews && now < p.expires
  {
  }

  // ---------------------------------------------------------------- invariant

  // What was agreed when the preview was consumed.
  predicate Authorized(p: Preview, r: Request, consumedAt: real) {
    && p.id == r.previewId && p.gatewayId == r.gatewayId && p.revision == r.revision
    && (p.critical ==> r.confirmCritical)
    && consumedAt < p.expires
  }

  ghost predicate CallsInv(s: State) {
    && (forall c | c in s.calls ::
          && Authorized(c.preview, c.request, c.consumedAt) && c.preview in s.created
          && c.current.writable && c.current.revision == c.preview.revision)
    && (forall i, j | 0 <= i < j < |s.calls| :: s.calls[i].preview.id != s.calls[j].preview.id)
  }

  ghost predicate PendingInv(s: State) {
    && (forall o | o in s.pending ::
          && Authorized(s.pending[o].preview, s.pending[o].request, s.pending[o].consumedAt)
          && s.pending[o].preview in s.created)
    && (forall o, q | o in s.pending && q in s.pending && o != q :: s.pending[o].preview.id != s.pending[q].preview.id)
    && (forall o, c | o in s.pending && c in s.calls :: s.pending[o].preview.id != c.preview.id)
  }

  // A stored preview has not been consumed.
  ghost predicate Unconsumed(s: State, previews: seq<Preview>) {
    forall p | p in previews ::
      && p in s.created
      && (forall o | o in s.pending :: s.pending[o].preview.id != p.id)
      && (forall c | c in s.calls :: c.preview.id != p.id)
  }

  ghost predicate Inv(s: State) {
    StoreInv(s.previews, s.clock) && CallsInv(s) && PendingInv(s) && Unconsumed(s, s.previews)
  }

  lemma FilteredStore(s: seq<Preview>, rule: Rule, now: real, later: real)
    requires StoreInv(s, now) && now <= later
    ensures StoreInv(Filter(s, rule), later)
  {
    FilterKeepsPairs(s, rule);
  }

  lemma PreviewKeepsInv(s: State, e: Event)
    requires Inv(s) && e.Previewed? && Possible(s, e)
    ensures Inv(OnPreview(s, e))
  {
    if OnPreview(s, e) != s {
      var p := Preview(e.token, e.gatewayId, e.snapshot.revision, e.now + TTL, e.critical, e.changes.value);
      StoringKeepsInv(s.previews, p, e.now);
    }
  }

  // Consuming leaves a store without the preview.
  lemma ConsumedStore(s: State, id: nat, now: real)
    requires Inv(s) && s.clock <= now
    ensures var left := WithoutId(Live(s.previews, now), id);
            && StoreInv(left, now) && (forall p | p in left :: p in s.previews && p.id != id)
  {
    FilteredStore(s.previews, LiveAt(now), s.clock, now);
    FilteredStore(Live(s.previews, now), OtherThan(id), now, now);
  }

  lemma ShrinkKeepsInv(s: State, left: seq<Preview>, now: real)
    requires Inv(s) && StoreInv(left, now) && forall p | p in left :: p in s.previews
    ensures Inv(s.(previews := left, clock := now))
  {
  }

  lemma PendingKeepsInv(s: State, operation: nat, op: Pending)
    requires Inv(s) && operation !in s.pending
    requires Authorized(op.preview, op.request, op.consumedAt) && Unconsumed(s, [op.preview])
    requires forall p | p in s.previews :: p.id != op.preview.id
    ensures Inv(s.(pending := s.pending[operation := op]))
  {
    assert op.preview in [op.preview];
  }

  lemma ApplyKeepsInv(s: State, e: Event)
    requires Inv(s) && e.ApplyBegins? && Possible(s, e)
    ensures Inv(OnApply(s, e))
  {
    var live := Live(s.previews, e.now);
    var found := Find(live, e.request.previewId);
    var left := WithoutId(live, e.request.previewId);
    ConsumedStore(s, e.request.previewId, e.now);
    ShrinkKeepsInv(s, left, e.now);
    FindMeans(live, e.request.previewId);
    if Checked(found, e.request, e.gatewayKnown).None? {
      assert Unconsumed(s, [found.value]);
      PendingKeepsInv(s.(previews := left, clock := e.now), e.operation, Pending(found.value, e.request, e.now));
    }
  }

  lemma ReadKeepsInv(s: State, e: Event)
    requires Inv(s) && e.ApplyRead?
    ensures Inv(OnRead(s, e))
  {
  }

  lemma StepKeepsInv(s: State, e: Event)
    requires Inv(s)
    ensures Inv(Step(s, e))
  {
    if Possible(s, e) {
      match e {
        case Previewed(_, _, _, _, _, _, _) => PreviewKeepsInv(s, e);
        case ApplyBegins(_, _, _, _) => ApplyKeepsInv(s, e);
        case ApplyRead(_, _) => ReadKeepsInv(s, e);
        case Expired(id) => FilteredStore(s.previews, OtherThan(id), s.clock, s.clock);
        case Invalidated =>
        case CleanedUp(now) => FilteredStore(s.previews, LiveAt(now), s.clock, now);
      }
    }
  }

  lemma {:induction false} RunKeepsInv(s: State, events: seq<Event>)
    requires Inv(s)
    ensures Inv(Run(s, events))
    decreases |events|
  {
    if events != [] {
      StepKeepsInv(s, events[0]);
      RunKeepsInv(Step(s, events[0]), events[1..]);
    }
  }

  /** Single use, over every interleaving: no preview reaches the adapter twice, and one that does was
      asked for by its own gateway and revision, confirmed when critical, consumed before it expired, and
      the radio read just before the call was writable and at the same revision. */
  lemma PreviewsAreUsedOnce(events: seq<Event>)
    ensures var s := Run(START, events);
            && (forall i, j | 0 <= i < j < |s.calls| :: s.calls[i].preview.id != s.calls[j].preview.id)
            && (forall c | c in s.calls ::
                  && Names(c.request, c.preview) && (c.preview.critical ==> c.request.confirmCritical)
                  && c.consumedAt < c.preview.expires && c.preview in s.created
                  && c.current == Snapshot(c.preview.revision, true))
  {
    RunKeepsInv(START, events);
  }

  /** The store holds at most one preview per gateway and at most the bound, and none that was consumed. */
  lemma StoreStaysBounded(events: seq<Event>)
    ensures var s := Run(START, events);
            && |s.previews| <= MAX_PREVIEWS
            && (forall i, j | 0 <= i < j < |s.previews| :: s.previews[i].gatewayId != s.previews[j].gatewayId)
            && (forall p, c | p in s.previews && c in s.calls :: c.preview.id != p.id)
  {
    RunKeepsInv(START, events);
    var s := Run(START, events);
    assert forall i, j | 0 <= i < j < |s.previews| :: Ordered(s.previews[i], s.previews[j]);
  }

  // The request for a preview, and the request to apply it.
  function Making(p: Preview, live: Snapshot, made: real): Event {
    Previewed(p.gatewayId, p.revision, live, p.id, p.critical, Some(p.changes), made)
  }

  function Applying(p: Preview, operation: nat, confirmed: bool, now: real): Event {
    ApplyBegins(operation, Request(p.gatewayId, p.revision, p.id, confirmed), now, true)
  }

  lemma MakingStores(s: State, p: Preview, live: Snapshot, made: real)
    requires Inv(s) && Possible(s, Making(p, live, made))
    requires live == Snapshot(p.revision, true) && p.expires == made + TTL
    ensures var t := Step(s, Making(p, live, made));
            Inv(t) && p in t.previews && t.clock == made && t.pending == s.pending && t.calls == s.calls
  {
    StepKeepsInv(s, Making(p, live, made));
    PreviewIsStored(s, Making(p, live, made));
    assert Wanted(Making(p, live, made)) == p;
    MadeIsStored(s, p, made);
  }

  lemma MadeIsStored(s: State, p: Preview, made: real)
    requires Inv(s) && s.clock <= made && p.expires == made + TTL && forall q | q in s.created :: q.id != p.id
    ensures p in Stored(s.previews, p, made)
  {
    StoringKeepsInv(s.previews, p, made);
  }

  /** And a preview does lead to its call: applied in time, as it was asked for, confirmed if it is critical,
      against a radio that is still writable and unchanged, exactly its plan goes to the adapter. */
  lemma PreviewLeadsToItsCall(s: State, p: Preview, live: Snapshot, made: real, operation: nat, confirmed: bool,
                              applied: real)
    requires Inv(s) && operation !in s.pending && Possible(s, Making(p, live, made))
    requires live == Snapshot(p.revision, true) && p.expires == made + TTL && made <= applied < p.expires
    requires p.critical ==> confirmed
    ensures Run(s, [Making(p, live, made), Applying(p, operation, confirmed, applied),
                    ApplyRead(operation, Some(live))]).calls
            == s.calls + [Call(p, Request(p.gatewayId, p.revision, p.id, confirmed), applied, live)]
  {
    var e0, e1 := Making(p, live, made), Applying(p, operation, confirmed, applied);
    var e2 := ApplyRead(operation, Some(live));
    MakingStores(s, p, live, made);
    ConsumeFinds(Step(s, e0), operation, p, e1.request, applied);
    ReadIsExact(Step(Step(s, e0), e1), operation, Some(live));
    RunThree(s, e0, e1, e2);
  }

  lemma ConsumeFinds(s: State, operation: nat, p: Preview, r: Request, now: real)
    requires Inv(s) && p in s.previews && operation !in s.pending && s.clock <= now < p.expires
    requires Names(r, p) && (p.critical ==> r.confirmCritical)
    ensures var t := Step(s, ApplyBegins(operation, r, now, true));
            t.calls == s.calls && t.pending == s.pending[operation := Pending(p, r, now)]
  {
    FoundIsLive(s.previews, p.id, now);
    assert IsLive(s.previews, p.id, now, p);
    ApplyIsExact(s, ApplyBegins(operation, r, now, true));
  }

  lemma RunThree(s: State, a: Event, b: Event, c: Event)
    ensures Run(s, [a, b, c]) == Step(Step(Step(s, a), b), c)
  {
    assert [a, b, c][1..] == [b, c] && [b, c][1..] == [c] && [c][1..] == [];
    assert Run(Step(Step(s, a), b), [c]) == Step(Step(Step(s, a), b), c);
  }

  // ---------------------------------------------------------------- the object

  class GatewaySettingsManager {
    var previews: seq<Preview>

    constructor ()
      ensures previews == []
    {
      previews := [];
    }

    method DiscardPreview(id: nat) returns (p: Option<Preview>)
      modifies `previews
      ensures previews == WithoutId(old(previews), id) && p == Find(old(previews), id)
    {
      p := Find(previews, id);
      previews := WithoutId(previews, id);
    }

    method CleanupPreviews(now: real)
      modifies `previews
      ensures previews == Live(old(previews), now)
    {
      var kept: seq<Preview> := [];
      var i := |previews|;
      while i > 0
        invariant 0 <= i <= |previews| && previews == old(previews)
        invariant kept == Live(previews[i..], now)
      {
        i := i - 1;
        assert previews[i..][1..] == previews[i + 1..];
        if previews[i].expires > now {
          kept := [previews[i]] + kept;
        }
      }
      assert previews[0..] == previews;
      previews := kept;
    }

    method TrimPreviews()
      modifies `previews
      ensures previews == Trimmed(old(previews))
    {
      while |previews| > MAX_PREVIEWS
        invariant Trimmed(previews) == Trimmed(old(previews))
        decreases |previews|
      {
        var i := Oldest(previews);
        previews := DropAt(previews, i);
      }
    }

    /** The end of a preview, after its validation: clean up, replace the gateway's preview, trim. */
    method StorePreview(p: Preview, now: real)
      modifies `previews
      ensures previews == Stored(old(previews), p, now)
    {
      CleanupPreviews(now);
      previews := WithoutGateway(previews, p.gatewayId);
      previews := previews + [p];
      TrimPreviews();
    }

    /** The start of an apply: the preview is gone afterwards, whatever the answer. */
    method ConsumePreview(r: Request, gatewayKnown: bool, now: real) returns (p: Option<Preview>,
                          refusal: Option<Refusal>)
      modifies `previews
      ensures previews == WithoutId(Live(old(previews), now), r.previewId)
      ensures p == Find(Live(old(previews), now), r.previewId)
      ensures refusal == Checked(p, r, gatewayKnown)
      ensures refusal == Some(PreviewExpired) <==> p.None? || !Names(r, p.value)
      ensures refusal == Some(ConfirmationRequired) <==>
                p.Some? && Names(r, p.value) && p.value.critical && !r.confirmCritical
      ensures refusal == Some(GatewayNotFound) <==>
                p.Some? && Names(r, p.value) && (p.value.critical ==> r.confirmCritical) && !gatewayKnown
      ensures refusal == None <==>
                p.Some? && Names(r, p.value) && (p.value.critical ==> r.confirmCritical) && gatewayKnown
    {
      FindMeans(Live(previews, now), r.previewId);
      CleanupPreviews(now);
      p := DiscardPreview(r.previewId);
      if p.None? || p.value.gatewayId != r.gatewayId || p.value.revision != r.revision {
        return p, Some(PreviewExpired);
      }
      if p.value.critical && !r.confirmCritical {
        return p, Some(ConfirmationRequired);
      }
      if !gatewayKnown {
        return p, Some(GatewayNotFound);
      }
      return p, None;
    }

    method Invalidate()
      modifies `previews
      ensures previews == []
    {
      while previews != []
        decreases |previews|
      {
        var first := previews[0];
        FirstGoes(previews);
        var gone := DiscardPreview(first.id);
      }
    }
  }

  lemma FirstGoes(s: seq<Preview>)
    requires s != []
    ensures |WithoutId(s, s[0].id)| < |s|
  {
  }
}
