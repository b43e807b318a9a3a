/**
The private secret state that goes into a settings revision: its byte stream, and why two different
states never have the same one.
*/
module SecretState {
  import opened Basics
  import opened Ordering

  const MAX_SETTINGS_FIELDS := 384
  const MAX_SECRET_LENGTH := 2048
  const MAX_PATH_LENGTH := 128
  const MAX_INTEGER := 0x1_0000_0000_0000_0000

  type Byte = b: int | 0 <= b < 256
  type Bytes = seq<Byte>

  // A raw scalar; text is given as its UTF-8 encoding.
  datatype Value =
    | Nothing
    | Boolean(on: bool)
    | Number(value: int)
    | Text(utf8: Bytes)
    | Blob(bytes: Bytes)
    | Unsupported

  type Path = string

  predicate PathStart(c: char) {
    'a' <= c <= 'z' || '0' <= c <= '9'
  }

  function PathParts(p: string): seq<string> {
    if p == [] then [""]
    else if p[0] == '.' then [""] + PathParts(p[1..])
    else
      var parts := PathParts(p[1..]);
      if parts == [] then [[p[0]]] else [[p[0]] + parts[0]] + parts[1..]
  }

  predicate SafePath(p: Path) {
    && 1 <= |p| <= MAX_PATH_LENGTH
    && PathStart(p[0])
    && (forall i | 0 <= i < |p| :: PathStart(p[i]) || p[i] == '_' || p[i] == '.' || p[i] == '-')
    && forall part | part in PathParts(p) :: part != "__proto__" && part != "prototype" && part != "constructor"
  }

  // ---------------------------------------------------------------- encoding

  function Digit(d: int): Byte
    requires 0 <= d < 10
  {
    48 + d
  }

  function Decimal(n: nat): Bytes {
    if n < 10 then [Digit(n)] else Decimal(n / 10) + [Digit(n % 10)]
  }

  function Signed(i: int): Bytes {
    if i < 0 then [45] + Decimal(-i) else Decimal(i)
  }

  function Marker(v: Value): Byte {
    match v
    case Nothing => 110
    case Boolean(_) => 116
    case Number(_) => 105
    case Text(_) => 115
    case Blob(_) => 98
    case Unsupported => 0
  }

  function Payload(v: Value): Bytes {
    match v
    case Nothing => []
    case Boolean(on) => if on then [49] else [48]
    case Number(i) => Signed(i)
    case Text(utf8) => utf8
    case Blob(bytes) => bytes
    case Unsupported => []
  }

  predicate Encodable(v: Value) {
    && !v.Unsupported?
    && (v.Number? ==> -MAX_INTEGER < v.value < MAX_INTEGER)
    && |Payload(v)| <= MAX_SECRET_LENGTH
  }

  function Size2(n: nat): Bytes
    requires n < 0x1_0000
  {
    [n / 256, n % 256]
  }

  function Size4(n: nat): Bytes
    requires n < 0x1_0000_0000
  {
    [n / 0x100_0000, n / 0x1_0000 % 256, n / 256 % 256, n % 256]
  }

  function Ascii(p: Path): Bytes
    requires SafePath(p)
  {
    seq(|p|, i requires 0 <= i < |p| => p[i] as int)
  }

  datatype Entry = Entry(path: Path, value: Value)

  predicate Storable(e: Entry) {
    SafePath(e.path) && Encodable(e.value)
  }

  function Record(e: Entry): Bytes
    requires Storable(e)
  {
    Size2(|e.path|) + Ascii(e.path) + [Marker(e.value)] + Size4(|Payload(e.value)|) + Payload(e.value)
  }

  function Stream(entries: seq<Entry>): Bytes
    requires forall e | e in entries :: Storable(e)
  {
    if entries == [] then [] else Record(entries[0]) + Stream(entries[1..])
  }

  // ---------------------------------------------------------------- decoding

  function ParseDecimal(b: Bytes): int {
    if b == [] then 0 else 10 * ParseDecimal(b[..|b| - 1]) + (b[|b| - 1] as int) - 48
  }

  function ParseSigned(b: Bytes): int {
    if b != [] && b[0] == 45 then -ParseDecimal(b[1..]) else ParseDecimal(b)
  }

  function ParseValue(marker: Byte, payload: Bytes): Value {
    match marker
    case 110 => Nothing
    case 116 => Boolean(payload == [49])
    case 105 => Number(ParseSigned(payload))
    case 115 => Text(payload)
    case 98 => Blob(payload)
    case _ => Unsupported
  }

  function ParsePath(b: Bytes): Path {
    seq(|b|, i requires 0 <= i < |b| => b[i] as char)
  }

  function ParseSize(b: Bytes): nat {
    if b == [] then 0 else 256 * ParseSize(b[..|b| - 1]) + b[|b| - 1] as nat
  }

  // One entry from the front, and the rest.
  function ParseRecord(b: Bytes): Option<(Entry, Bytes)> {
    if |b| < 2 then None
    else
      var n := ParseSize(b[..2]);
      if |b| < n + 7 then None
      else
        var size := ParseSize(b[n + 3..n + 7]);
        if |b| < n + 7 + size then None
        else Some((Entry(ParsePath(b[2..n + 2]), ParseValue(b[n + 2], b[n + 7..n + 7 + size])), b[n + 7 + size..]))
  }

  function Parse(b: Bytes): Option<seq<Entry>>
    decreases |b|
  {
    if b == [] then Some([])
    else
      var first := ParseRecord(b);
      if first.None? then None
      else
        var rest := Parse(first.value.1);
        if rest.None? then None else Some([first.value.0] + rest.value)
  }

  lemma {:induction false} DecimalRoundTrip(n: nat)
    ensures ParseDecimal(Decimal(n)) == n
    ensures |Decimal(n)| > 0 && Decimal(n)[0] != 45
  {
    if n >= 10 {
      DecimalRoundTrip(n / 10);
      var b := Decimal(n);
      assert b[..|b| - 1] == Decimal(n / 10);
      assert b[0] == Decimal(n / 10)[0];
    } else {
      assert Decimal(n)[..0] == [];
    }
  }

  lemma ValueRoundTrip(v: Value)
    requires Encodable(v)
    ensures ParseValue(Marker(v), Payload(v)) == v
  {
    if v.Number? {
      DecimalRoundTrip(if v.value < 0 then -v.value else v.value);
    }
  }

  lemma PathRoundTrip(p: Path)
    requires SafePath(p)
    ensures ParsePath(Ascii(p)) == p
  {
  }

  lemma SizeRoundTrip(n: nat)
    ensures n < 0x1_0000 ==> ParseSize(Size2(n)) == n
    ensures n < 0x1_0000_0000 ==> ParseSize(Size4(n)) == n
  {
    if n < 0x1_0000 {
      assert Size2(n)[..1] == [n / 256] && [n / 256][..0] == [];
    }
    if n < 0x1_0000_0000 {
      var s := Size4(n);
      assert s[..3][..2] == s[..2] && s[..2][..1] == s[..1] && s[..1][..0] == [];
      assert ParseSize(s[..1]) == n / 0x100_0000;
      assert ParseSize(s[..2]) == n / 0x1_0000;
      assert ParseSize(s[..3]) == n / 256;
    }
  }

  // The record's parts sit where the decoder looks for them.
  lemma RecordParts(e: Entry, tail: Bytes)
    requires Storable(e)
    ensures var b, n, payload := Record(e) + tail, |e.path|, Payload(e.value);
            && |b| == n + 7 + |payload| + |tail|
            && b[..2] == Size2(n)
            && b[2..n + 2] == Ascii(e.path) && b[n + 2] == Marker(e.value)
            && b[n + 3..n + 7] == Size4(|payload|)
            && b[n + 7..n + 7 + |payload|] == payload && b[n + 7 + |payload|..] == tail
  {
  }

  lemma RecordRoundTrip(e: Entry, tail: Bytes)
    requires Storable(e)
    ensures ParseRecord(Record(e) + tail) == Some((e, tail))
  {
    RecordParts(e, tail);
    SizeRoundTrip(|e.path|);
    SizeRoundTrip(|Payload(e.value)|);
    PathRoundTrip(e.path);
    ValueRoundTrip(e.value);
  }

  /** Round trip: the stream decodes to exactly the entries it was made of. */
  lemma {:induction false} StreamRoundTrip(entries: seq<Entry>)
    requires forall e | e in entries :: Storable(e)
    ensures Parse(Stream(entries)) == Some(entries)
  {
    if entries != [] {
      StreamRoundTrip(entries[1..]);
      RecordRoundTrip(entries[0], Stream(entries[1..]));
      assert entries == [entries[0]] + entries[1..];
    }
  }

  // ---------------------------------------------------------------- states

  type State = map<Path, Value>

  predicate Accepted(raw: State, secretPaths: set<Path>) {
    && |raw| <= MAX_SETTINGS_FIELDS
    && (forall p | p in raw :: SafePath(p) && p in secretPaths)
    && (forall p | p in raw :: Encodable(raw[p]))
  }

  function Entries(raw: State, paths: seq<Path>): seq<Entry>
    requires forall p | p in paths :: p in raw
  {
    seq(|paths|, i requires 0 <= i < |paths| => Entry(paths[i], raw[paths[i]]))
  }

  ghost predicate SortedPaths(raw: State, paths: seq<Path>) {
    SortedBy(TextLess, paths) && Members(paths) == raw.Keys
  }

  /** Two accepted states have the same stream exactly when they are the same state. */
  lemma StreamIsInjective(a: State, b: State, secretPaths: set<Path>, aPaths: seq<Path>, bPaths: seq<Path>)
    requires Accepted(a, secretPaths) && Accepted(b, secretPaths)
    requires SortedPaths(a, aPaths) && SortedPaths(b, bPaths)
    ensures Stream(Entries(a, aPaths)) == Stream(Entries(b, bPaths)) <==> a == b
  {
    StreamRoundTrip(Entries(a, aPaths));
    StreamRoundTrip(Entries(b, bPaths));
    if Stream(Entries(a, aPaths)) == Stream(Entries(b, bPaths)) {
      SameEntries(a, b, aPaths, bPaths);
    }
    if a == b {
      TextOrder(Members(aPaths));
      SortedIsUnique(TextLess, aPaths, bPaths);
    }
  }

  lemma SameEntries(a: State, b: State, aPaths: seq<Path>, bPaths: seq<Path>)
    requires SortedPaths(a, aPaths) && SortedPaths(b, bPaths)
    requires Entries(a, aPaths) == Entries(b, bPaths)
    ensures a == b
  {
    var x, y := Entries(a, aPaths), Entries(b, bPaths);
    assert |aPaths| == |x| && |bPaths| == |y|;
    forall i | 0 <= i < |aPaths|
      ensures aPaths[i] == bPaths[i] && a[aPaths[i]] == b[bPaths[i]]
    {
      assert x[i] == y[i];
    }
    assert aPaths == bPaths;
    forall p | p in a
      ensures p in b && a[p] == b[p]
    {
      assert p in Members(aPaths);
    }
  }

  lemma JoinBytes(a: Bytes, b: Bytes, c: Bytes)
    ensures a + (b + c) == (a + b) + c
  {
  }

  lemma {:induction false} StreamAppend(entries: seq<Entry>, e: Entry)
    requires forall x | x in entries :: Storable(x)
    requires Storable(e)
    ensures Stream(entries + [e]) == Stream(entries) + Record(e)
  {
    if entries == [] {
      assert Stream([e]) == Record(e) + Stream([e][1..]);
      assert [e][1..] == [];
    } else {
      var rest := entries[1..];
      StreamAppend(rest, e);
      assert (entries + [e])[1..] == rest + [e];
      JoinBytes(Record(entries[0]), Stream(rest), Record(e));
    }
  }

  // Feeds one entry to the digest, unless its value is refused.
  method Feed(digest: Bytes, path: Path, value: Value) returns (r: Option<Bytes>)
    requires SafePath(path)
    ensures r.Some? <==> Encodable(value)
    ensures r.Some? ==> r.value == digest + Record(Entry(path, value))
  {
    if value.Unsupported? || (value.Number? && !(-MAX_INTEGER < value.value < MAX_INTEGER)) {
      return None;
    }
    var payload := Payload(value);
    if |payload| > MAX_SECRET_LENGTH {
      return None;
    }
    var fed := digest + (Size2(|path|) + Ascii(path) + [Marker(value)] + Size4(|payload|) + payload);
    return Some(fed);
  }

  lemma EntriesAppend(raw: State, paths: seq<Path>, i: nat)
    requires i < |paths| && forall p | p in paths :: p in raw
    ensures Entries(raw, paths[..i + 1]) == Entries(raw, paths[..i]) + [Entry(paths[i], raw[paths[i]])]
  {
  }

  /** What is fed to the keyed digest, or None for refused material. */
  method RevisionStream(raw: State, secretPaths: set<Path>) returns (stream: Option<Bytes>, ghost paths: seq<Path>)
    ensures stream.Some? <==> Accepted(raw, secretPaths)
    ensures stream.Some? ==> SortedPaths(raw, paths) && stream.value == Stream(Entries(raw, paths))
  {
    paths := [];
    if |raw| > MAX_SETTINGS_FIELDS {
      return None, paths;
    }
    if exists p | p in raw :: !SafePath(p) || p !in secretPaths {
      return None, paths;
    }
    TextOrder(raw.Keys);
    var order := Sort(raw.Keys, TextLess);
    assert forall p :: p in order <==> p in Members(order);
    var digest := FeedAll(raw, order);
    return digest, order;
  }

  ghost predicate Listable(raw: State, order: seq<Path>) {
    forall p | p in order :: p in raw && SafePath(p)
  }

  // The digest has been fed the first i entries.
  ghost predicate Fed(raw: State, order: seq<Path>, i: nat, digest: Bytes) {
    && Listable(raw, order) && i <= |order|
    && (forall k | 0 <= k < i :: Encodable(raw[order[k]]))
    && digest == Stream(Entries(raw, order[..i]))
  }

  lemma FedNext(raw: State, order: seq<Path>, i: nat, digest: Bytes)
    requires Fed(raw, order, i, digest) && i < |order| && Encodable(raw[order[i]])
    ensures Fed(raw, order, i + 1, digest + Record(Entry(order[i], raw[order[i]])))
  {
    EntriesAppend(raw, order, i);
    StreamAppend(Entries(raw, order[..i]), Entry(order[i], raw[order[i]]));
  }

  lemma FedAll(raw: State, order: seq<Path>, digest: Bytes)
    requires Fed(raw, order, |order|, digest)
    ensures forall p | p in order :: Encodable(raw[p])
    ensures digest == Stream(Entries(raw, order))
  {
    assert order[..|order|] == order;
  }

  method FeedAll(raw: State, order: seq<Path>) returns (stream: Option<Bytes>)
    requires Listable(raw, order)
    ensures stream.Some? <==> forall p | p in order :: Encodable(raw[p])
    ensures stream.Some? ==> stream.value == Stream(Entries(raw, order))
  {
    var digest: Bytes := [];
    var i := 0;
    while i < |order|
      invariant 0 <= i <= |order| && Fed(raw, order, i, digest)
    {
      var fed := Feed(digest, order[i], raw[order[i]]);
      if fed.None? {
        return None;
      }
      FedNext(raw, order, i, digest);
      digest := fed.value;
      i := i + 1;
    }
    FedAll(raw, order, digest);
    return Some(digest);
  }
}
