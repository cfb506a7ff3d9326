/** Entries of the extension registry: how they are checked, ordered, written down and read back. */
module RegistryEntries {
  import opened Wrappers
  import opened Utf
  import opened DataValueCodec

  const SCHEMA_VERSION := 1
  const MAX_REGISTRY_BYTES := 1024 * 1024
  const MAX_REGISTRY_ENTRIES := 512
  const MAX_SOURCE_PATH_BYTES := 4096
  const MAX_PERMISSION_DECISIONS := 64
  const MAX_PERMISSION_DOMAINS := 128
  const MAX_SETTINGS_BYTES := 256 * 1024
  const MAX_SETTINGS_NODES := 4096
  const MAX_SETTINGS_DEPTH := 16

  datatype Domain = Domain(pattern: string, canonical: bool)

  /** A permission with the JSON text that orders it; network scopes list domains. */
  datatype Permission = Permission(json: string, domains: Option<seq<Domain>>)

  datatype StoredDecision = StoredDecision(permission: Permission, granted: bool)

  /** Settings with the length of their JSON encoding. */
  datatype Settings = Settings(value: DataValue, encodedBytes: nat)

  datatype Entry = Entry(extension: string, sourcePath: string, contentHash: string, enabled: bool,
                         permissions: seq<StoredDecision>, settings: Option<Settings>)

  datatype Error =
    | RegistryTooLarge
    | TooManyEntries
    | UnsupportedSchema
    | DuplicateExtension(extension: string)
    | InvalidSourcePath
    | InvalidContentHash
    | TooManyPermissionDecisions
    | DuplicatePermission
    | InvalidPermission
    | InvalidSettings
    | ExtensionNotFound
    | AtomicRollbackFailed
    | Json
    | Io

  // ---- Order of strings ----

  predicate LexLe(a: string, b: string) {
    a == [] || (b != [] && (a[0] < b[0] || (a[0] == b[0] && LexLe(a[1..], b[1..]))))
  }

  lemma {:induction false} LexTotal(a: string, b: string)
    ensures LexLe(a, b) || LexLe(b, a)
    ensures LexLe(a, b) && LexLe(b, a) ==> a == b
    ensures LexLe(a, a)
  {
    if a != [] {
      LexTotal(a[1..], if b == [] then [] else b[1..]);
      assert b != [] ==> a == [a[0]] + a[1..] && b == [b[0]] + b[1..];
    }
  }

  lemma {:induction false} LexTransitive(a: string, b: string, c: string)
    requires LexLe(a, b) && LexLe(b, c)
    ensures LexLe(a, c)
  {
    if a != [] && a[0] == b[0] == c[0] {
      LexTransitive(a[1..], b[1..], c[1..]);
    }
  }

  ghost predicate FirstDifference(a: string, b: string, k: nat) {
    k < |a| && k < |b| && a[..k] == b[..k] && a[k] != b[k]
  }

  lemma DifferenceShifts(a: string, b: string, k: nat)
    requires a != [] && b != [] && a[0] == b[0]
    ensures FirstDifference(a, b, k + 1) <==> FirstDifference(a[1..], b[1..], k)
  {
    if k < |a| - 1 && k < |b| - 1 {
      assert a[..k + 1] == [a[0]] + a[1..][..k] && b[..k + 1] == [b[0]] + b[1..][..k];
      assert a[1..][..k] == a[..k + 1][1..] && b[1..][..k] == b[..k + 1][1..];
    }
  }

  /** Strings are ordered by the first character in which they differ; a prefix comes first. */
  lemma {:induction false} LexLeMeans(a: string, b: string)
    ensures LexLe(a, b) <==> a <= b || exists k: nat :: FirstDifference(a, b, k) && a[k] < b[k]
  {
    if a != [] && b != [] && a[0] == b[0] {
      var c, d := a[1..], b[1..];
      LexLeMeans(c, d);
      assert a == [a[0]] + c && b == [b[0]] + d;
      assert a <= b <==> c <= d;
      if k: nat :| FirstDifference(c, d, k) && c[k] < d[k] {
        DifferenceShifts(a, b, k);
        assert FirstDifference(a, b, k + 1);
      }
      if k: nat :| FirstDifference(a, b, k) && a[k] < b[k] {
        DifferenceShifts(a, b, k - 1);
        assert FirstDifference(c, d, k - 1);
      }
    } else if a != [] && b != [] {
      assert a[..0] == b[..0];
      assert FirstDifference(a, b, 0);
      if k: nat :| FirstDifference(a, b, k) && a[k] < b[k] {
        assert k > 0 ==> a[..k][0] == b[..k][0];
      }
    }
  }

  predicate LexLess(a: string, b: string) { LexLe(a, b) && a != b }

  // ---- The permission sort ----

  function Key(d: StoredDecision): string { d.permission.json }

  predicate SortedByKey(ds: seq<StoredDecision>) {
    |ds| <= 1 || (LexLe(Key(ds[0]), Key(ds[1])) && SortedByKey(ds[1..]))
  }

  /** Puts a decision before the first one that does not order below it. */
  function Place(d: StoredDecision, ds: seq<StoredDecision>): seq<StoredDecision> {
    if ds == [] || LexLe(Key(d), Key(ds[0])) then [d] + ds else [ds[0]] + Place(d, ds[1..])
  }

  /** The stable sort by JSON text. */
  function Sort(ds: seq<StoredDecision>): seq<StoredDecision> {
    if ds == [] then [] else Place(ds[0], Sort(ds[1..]))
  }

  lemma {:induction false} PlaceKeepsOrder(d: StoredDecision, ds: seq<StoredDecision>)
    requires SortedByKey(ds)
    ensures SortedByKey(Place(d, ds))
    ensures multiset(Place(d, ds)) == multiset{d} + multiset(ds)
    ensures |Place(d, ds)| == |ds| + 1
  {
    if ds != [] && !LexLe(Key(d), Key(ds[0])) {
      LexTotal(Key(d), Key(ds[0]));
      PlaceKeepsOrder(d, ds[1..]);
      assert Place(d, ds)[1..] == Place(d, ds[1..]);
      assert ds == [ds[0]] + ds[1..];
    } else {
      assert ([d] + ds)[1..] == ds;
    }
  }

  /** Sorting orders the decisions and neither adds nor loses one. */
  lemma {:induction false} SortSorts(ds: seq<StoredDecision>)
    ensures SortedByKey(Sort(ds)) && multiset(Sort(ds)) == multiset(ds) && |Sort(ds)| == |ds|
  {
    if ds != [] {
      SortSorts(ds[1..]);
      PlaceKeepsOrder(ds[0], Sort(ds[1..]));
      assert ds == [ds[0]] + ds[1..];
    }
  }

  lemma {:induction false} SortOfSorted(ds: seq<StoredDecision>)
    requires SortedByKey(ds)
    ensures Sort(ds) == ds
  {
    if |ds| > 1 {
      SortOfSorted(ds[1..]);
    }
  }

  /** Writes the sorted decisions back over the slice they came from. */
  method SortPermissionDecisions(decisions: array<StoredDecision>)
    modifies decisions
    ensures decisions[..] == Sort(old(decisions[..]))
  {
    SortSorts(decisions[..]);
    var keyed := Sort(decisions[..]);
    for i := 0 to decisions.Length
      invariant decisions[..i] == keyed[..i]
    {
      decisions[i] := keyed[i];
    }
  }

  // ---- Validators ----

  predicate ValidPermission(p: Permission) {
    p.domains.Some? ==>
      && |p.domains.value| <= MAX_PERMISSION_DOMAINS
      && (forall i :: 0 <= i < |p.domains.value| ==> p.domains.value[i].canonical)
      && (forall i, j :: 0 <= i < j < |p.domains.value| ==> p.domains.value[i] != p.domains.value[j])
  }

  predicate DistinctPermissions(ds: seq<StoredDecision>) {
    forall i, j :: 0 <= i < j < |ds| ==> ds[i].permission != ds[j].permission
  }

  predicate ValidDecisions(ds: seq<StoredDecision>) {
    && |ds| <= MAX_PERMISSION_DECISIONS
    && (forall i :: 0 <= i < |ds| ==> ValidPermission(ds[i].permission))
    && DistinctPermissions(ds)
  }

  /** Checks each decision against those before it, then sorts. */
  method ValidatePermissionDecisions(ds: seq<StoredDecision>) returns (r: Result<seq<StoredDecision>, Error>)
    ensures r.Ok? <==> ValidDecisions(ds)
    ensures r.Ok? ==> r.value == Sort(ds)
  {
    if |ds| > MAX_PERMISSION_DECISIONS {
      return Err(TooManyPermissionDecisions);
    }
    for i := 0 to |ds|
      invariant forall j :: 0 <= j < i ==> ValidPermission(ds[j].permission)
      invariant DistinctPermissions(ds[..i])
    {
      if !ValidPermission(ds[i].permission) {
        return Err(InvalidPermission);
      }
      if exists j :: 0 <= j < i && ds[j].permission == ds[i].permission {
        return Err(DuplicatePermission);
      }
      assert forall j :: 0 <= j < i ==> ds[..i + 1][j] == ds[..i][j];
    }
    assert ds[..|ds|] == ds;
    var slice := new StoredDecision[|ds|](i requires 0 <= i < |ds| => ds[i]);
    assert slice[..] == ds;
    SortPermissionDecisions(slice);
    r := Ok(slice[..]);
  }

  /** Sorting cannot make a list of decisions unacceptable. */
  lemma SortKeepsValid(ds: seq<StoredDecision>)
    requires ValidDecisions(ds)
    ensures ValidDecisions(Sort(ds))
  {
    SortSorts(ds);
    var s := Sort(ds);
    forall i | 0 <= i < |s| ensures ValidPermission(s[i].permission) {
      assert s[i] in multiset(s);
    }
    DistinctCount(ds);
    forall i, j | 0 <= i < j < |s| ensures s[i].permission != s[j].permission {
      if s[i].permission == s[j].permission {
        assert s[i] in multiset(ds) && s[j] in multiset(ds);
        assert s[i] == s[j];
        RepeatCounts(s, i, j);
      }
    }
  }

  lemma {:induction false} DistinctCount(ds: seq<StoredDecision>)
    requires DistinctPermissions(ds)
    ensures forall d :: multiset(ds)[d] <= 1
    ensures forall d, e :: d in ds && e in ds && d.permission == e.permission ==> d == e
  {
    if ds != [] {
      DistinctCount(ds[1..]);
      assert ds == [ds[0]] + ds[1..];
    }
  }

  lemma RepeatCounts(s: seq<StoredDecision>, i: nat, j: nat)
    requires i < j < |s| && s[i] == s[j]
    ensures multiset(s)[s[i]] >= 2
  {
    assert s == s[..j] + [s[j]] + s[j + 1..];
    assert s[i] in s[..j];
  }

  predicate ValidContentHash(hash: string) {
    |hash| == 64 && forall i :: 0 <= i < |hash| ==> '0' <= hash[i] <= '9' || 'a' <= hash[i] <= 'f'
  }

  /** A content hash is 32 bytes in lower-case hexadecimal. */
  lemma ContentHashIsHexadecimal(hash: string)
    ensures ValidContentHash(hash) <==> |hash| == 2 * 32 && forall c :: c in hash ==> c in "0123456789abcdef"
  {
    var digits := "0123456789abcdef";
    forall c: char ensures c in digits <==> '0' <= c <= '9' || 'a' <= c <= 'f' {
      HexadecimalDigit(c);
    }
    assert forall i :: 0 <= i < |hash| ==> hash[i] in hash;
  }

  lemma HexadecimalDigit(c: char)
    ensures c in "0123456789abcdef" <==> '0' <= c <= '9' || 'a' <= c <= 'f'
  {
    var digits := "0123456789abcdef";
    if '0' <= c <= '9' {
      assert digits[c as int - '0' as int] == c;
    } else if 'a' <= c <= 'f' {
      assert digits[10 + c as int - 'a' as int] == c;
    }
  }

  function Components(path: string): (cs: seq<string>)
    ensures cs != []
  {
    if path == [] then [""]
    else
      var rest := Components(path[1..]);
      if path[0] == '/' then [""] + rest else [[path[0]] + rest[0]] + rest[1..]
  }

  function Joined(cs: seq<string>): string
    requires cs != []
  {
    if |cs| == 1 then cs[0] else cs[0] + "/" + Joined(cs[1..])
  }

  lemma JoinedFront(c: char, cs: seq<string>)
    requires cs != []
    ensures Joined([[c] + cs[0]] + cs[1..]) == [c] + Joined(cs)
  {
    var ds := [[c] + cs[0]] + cs[1..];
    assert ds[1..] == cs[1..];
    if |cs| > 1 {
      assert Joined(cs) == cs[0] + "/" + Joined(cs[1..]);
      assert ds[0] + "/" + Joined(ds[1..]) == [c] + (cs[0] + "/" + Joined(cs[1..]));
    }
  }

  /** The components are the pieces between slashes. */
  lemma {:induction false} ComponentsSplit(path: string)
    ensures Joined(Components(path)) == path
    ensures forall c :: c in Components(path) ==> '/' !in c
  {
    hide Joined;
    if path == [] {
      JoinedOne("");
    } else {
      ComponentsSplit(path[1..]);
      var rest := Components(path[1..]);
      assert path == [path[0]] + path[1..];
      if path[0] == '/' {
        JoinedAfterSlash(rest);
      } else {
        JoinedFront(path[0], rest);
        assert rest[0] in rest;
        assert forall c :: c in [[path[0]] + rest[0]] + rest[1..] ==> c == [path[0]] + rest[0] || c in rest;
      }
    }
  }

  lemma JoinedOne(c: string)
    ensures Joined([c]) == c
  {
  }

  lemma JoinedAfterSlash(cs: seq<string>)
    requires cs != []
    ensures Joined([""] + cs) == "/" + Joined(cs)
  {
    assert ([""] + cs)[1..] == cs;
  }

  /** Absolute, within the length limit, and with no parent component. */
  predicate ValidSourcePath(path: string) {
    && path != [] && path[0] == '/'
    && Width(Utf8, path) <= MAX_SOURCE_PATH_BYTES
    && ".." !in Components(path)
  }

  /** `c` stands in the path at `i`, between slashes or the ends of the path. */
  ghost predicate PieceAt(path: string, i: nat, c: string) {
    && i + |c| <= |path| && path[i..i + |c|] == c
    && (i == 0 || path[i - 1] == '/') && (i + |c| == |path| || path[i + |c|] == '/')
  }

  ghost predicate PieceAfter(path: string, i: nat, c: string) { PieceAt(path, i + 1, c) }

  ghost predicate LaterPiece(path: string, c: string) { exists i: nat :: PieceAfter(path, i, c) }

  lemma PieceShifts(path: string, i: nat, c: string)
    requires path != []
    ensures PieceAfter(path, i, c) <==> PieceAt(path[1..], i, c) && (i == 0 ==> path[0] == '/')
  {
    var rest := path[1..];
    if i + |c| <= |rest| {
      assert rest[i..i + |c|] == path[i + 1..i + 1 + |c|];
    }
  }

  /** A later piece is one of the rest, or the rest begins with it after a slash. */
  lemma LaterShifts(path: string, c: string)
    requires path != []
    ensures LaterPiece(path, c) <==> LaterPiece(path[1..], c) || (path[0] == '/' && PieceAt(path[1..], 0, c))
  {
    hide PieceAt;
    if i: nat :| PieceAfter(path, i, c) {
      PieceShifts(path, i, c);
      assert i > 0 ==> PieceAfter(path[1..], i - 1, c) by {
        IsAfter(path[1..], i, c);
      }
    }
    if i: nat :| PieceAfter(path[1..], i, c) {
      PieceShifts(path, i + 1, c);
      IsAfter(path[1..], i + 1, c);
    }
    PieceShifts(path, 0, c);
  }

  lemma IsAfter(path: string, i: nat, c: string)
    ensures i > 0 ==> (PieceAfter(path, i - 1, c) <==> PieceAt(path, i, c))
  {
  }

  /** A component is what stands between two slashes. */
  lemma {:induction false} PiecesAre(path: string, c: string)
    requires '/' !in c
    ensures PieceAt(path, 0, c) <==> c == Components(path)[0]
    ensures c in Components(path)[1..] <==> LaterPiece(path, c)
  {
    if path == [] {
      assert forall i: nat :: !PieceAfter(path, i, c);
    } else {
      hide PieceAt, LaterPiece;
      var rest := Components(path[1..]);
      PiecesAre(path[1..], c);
      LaterShifts(path, c);
      FirstPiece(path, c);
      assert rest == [rest[0]] + rest[1..];
      if path[0] == '/' {
        assert Components(path)[1..] == rest;
      } else {
        assert Components(path)[1..] == rest[1..];
        assert c == Components(path)[0] <==> c != [] && c[0] == path[0] && c[1..] == rest[0];
        if c != [] {
          PiecesAre(path[1..], c[1..]);
        }
      }
    }
  }

  lemma FirstPiece(path: string, c: string)
    requires path != [] && '/' !in c
    ensures PieceAt(path, 0, c) <==>
              if path[0] == '/' then c == [] else c != [] && c[0] == path[0] && PieceAt(path[1..], 0, c[1..])
  {
    if c != [] && |c| <= |path| {
      assert path[0..|c|] == [path[0]] + path[1..][..|c| - 1];
      assert c == [c[0]] + c[1..];
      if path[0..|c|] == c {
        assert path[1..][..|c| - 1] == path[0..|c|][1..];
      }
    }
  }

  /** A source path begins with a slash and climbs nowhere: two dots never stand alone between slashes. */
  lemma SourcePathsStay(path: string)
    ensures ValidSourcePath(path) <==>
              && path != [] && path[0] == '/' && Width(Utf8, path) <= MAX_SOURCE_PATH_BYTES
              && forall i: nat :: !PieceAt(path, i, "..")
  {
    hide PieceAt, Components, Width;
    PiecesAre(path, "..");
    var cs := Components(path);
    assert cs == [cs[0]] + cs[1..];
    if i: nat :| PieceAt(path, i, "..") {
      IsAfter(path, i, "..");
    }
    if i: nat :| PieceAfter(path, i, "..") {
      IsAfter(path, i + 1, "..");
    }
  }

  // ---- Settings ----

  predicate SafeKey(key: string) {
    && 0 < |key| && Width(Utf8, key) <= 128
    && forall i :: 0 <= i < |key| ==>
         'a' <= key[i] <= 'z' || 'A' <= key[i] <= 'Z' || '0' <= key[i] <= '9' || key[i] == '-' || key[i] == '_'
  }

  const LOWER := "abcdefghijklmnopqrstuvwxyz"
  const UPPER := "ABCDEFGHIJKLMNOPQRSTUVWXYZ"
  const DIGITS := "0123456789"

  predicate WordCharacter(c: char) { c in LOWER || c in UPPER || c in DIGITS || c in "-_" }

  /** A key is 1 to 128 letters, digits, hyphens and underscores. */
  lemma KeysAreWords(key: string)
    ensures SafeKey(key) <==> 1 <= |key| <= 128 && forall i :: 0 <= i < |key| ==> WordCharacter(key[i])
  {
    hide WordCharacter;
    forall c: char
      ensures WordCharacter(c) <==>
                'a' <= c <= 'z' || 'A' <= c <= 'Z' || '0' <= c <= '9' || c == '-' || c == '_'
    {
      WordCharactersAre(c);
    }
    if forall i :: 0 <= i < |key| ==> WordCharacter(key[i]) {
      OneByteEach(key);
    }
    if SafeKey(key) {
      OneByteEach(key);
    }
  }

  lemma WordCharactersAre(c: char)
    ensures WordCharacter(c) <==> 'a' <= c <= 'z' || 'A' <= c <= 'Z' || '0' <= c <= '9' || c == '-' || c == '_'
  {
    IsLower(c);
    IsUpper(c);
    IsDigit(c);
  }

  lemma IsLower(c: char)
    ensures c in LOWER <==> 'a' <= c <= 'z'
  {
    if 'a' <= c <= 'z' {
      assert LOWER[c as int - 'a' as int] == c;
    }
  }

  lemma IsUpper(c: char)
    ensures c in UPPER <==> 'A' <= c <= 'Z'
  {
    if 'A' <= c <= 'Z' {
      assert UPPER[c as int - 'A' as int] == c;
    }
  }

  lemma IsDigit(c: char)
    ensures c in DIGITS <==> '0' <= c <= '9'
  {
    if '0' <= c <= '9' {
      assert DIGITS[c as int - '0' as int] == c;
    }
  }

  lemma {:induction false} OneByteEach(s: string)
    requires forall i :: 0 <= i < |s| ==> s[i] as int < 0x80
    ensures Width(Utf8, s) == |s|
  {
    if s != [] {
      OneByteEach(s[1..]);
    }
  }

  /** Walks a value depth first, threading the count of values seen; stops at the first fault. */
  function Visit(v: DataValue, depth: nat, nodes: nat): Option<nat>
    decreases v, 1
  {
    if depth > MAX_SETTINGS_DEPTH || nodes + 1 > MAX_SETTINGS_NODES then None
    else match v
      case Text(s) => if Width(Utf8, s) > MAX_SETTINGS_BYTES then None else Some(nodes + 1)
      case List(vs) => VisitAll(vs, depth + 1, nodes + 1)
      case Record(fs) => VisitFields(fs, depth + 1, nodes + 1)
      case _ => Some(nodes + 1)
  }

  function VisitAll(vs: seq<DataValue>, depth: nat, nodes: nat): Option<nat>
    decreases vs, 0
  {
    if vs == [] then Some(nodes)
    else match Visit(vs[0], depth, nodes)
      case None => None
      case Some(n) => VisitAll(vs[1..], depth, n)
  }

  function VisitFields(fs: seq<DataField>, depth: nat, nodes: nat): Option<nat>
    decreases fs, 0
  {
    if fs == [] then Some(nodes)
    else if !SafeKey(fs[0].key) then None
    else match Visit(fs[0].value, depth, nodes)
      case None => None
      case Some(n) => VisitFields(fs[1..], depth, n)
  }

  function Count(v: DataValue): (n: nat)
    ensures n >= 1
  {
    1 + match v
        case List(vs) => CountAll(vs)
        case Record(fs) => CountFields(fs)
        case _ => 0
  }

  function CountAll(vs: seq<DataValue>): nat { if vs == [] then 0 else Count(vs[0]) + CountAll(vs[1..]) }

  function CountFields(fs: seq<DataField>): nat { if fs == [] then 0 else Count(fs[0].value) + CountFields(fs[1..]) }

  /** The value nests no deeper than `room` levels below its root, with safe keys and short strings throughout. */
  predicate Shallow(v: DataValue, room: int) {
    0 <= room &&
    match v
    case Text(s) => Width(Utf8, s) <= MAX_SETTINGS_BYTES
    case List(vs) => forall i :: 0 <= i < |vs| ==> Shallow(vs[i], room - 1)
    case Record(fs) => forall i :: 0 <= i < |fs| ==> SafeKey(fs[i].key) && Shallow(fs[i].value, room - 1)
    case _ => true
  }

  /** The walk accepts exactly the shallow values that fit the node budget, and returns the true count. */
  lemma {:induction false} VisitCounts(v: DataValue, depth: nat, nodes: nat)
    requires nodes <= MAX_SETTINGS_NODES
    ensures Visit(v, depth, nodes) ==
            if Shallow(v, MAX_SETTINGS_DEPTH - depth) && nodes + Count(v) <= MAX_SETTINGS_NODES
            then Some(nodes + Count(v)) else None
    decreases v, 1
  {
    if depth <= MAX_SETTINGS_DEPTH && nodes < MAX_SETTINGS_NODES {
      match v
      case List(vs) => VisitAllCounts(vs, depth + 1, nodes + 1);
      case Record(fs) => VisitFieldsCounts(fs, depth + 1, nodes + 1);
      case _ =>
    }
  }

  lemma {:induction false} VisitAllCounts(vs: seq<DataValue>, depth: nat, nodes: nat)
    requires nodes <= MAX_SETTINGS_NODES
    ensures VisitAll(vs, depth, nodes) ==
            if (forall i :: 0 <= i < |vs| ==> Shallow(vs[i], MAX_SETTINGS_DEPTH - depth))
               && nodes + CountAll(vs) <= MAX_SETTINGS_NODES
            then Some(nodes + CountAll(vs)) else None
    decreases vs, 0
  {
    if vs != [] {
      VisitCounts(vs[0], depth, nodes);
      if Visit(vs[0], depth, nodes).Some? {
        VisitAllCounts(vs[1..], depth, nodes + Count(vs[0]));
      }
      assert forall i :: 0 < i < |vs| ==> vs[i] == vs[1..][i - 1];
    }
  }

  lemma {:induction false} VisitFieldsCounts(fs: seq<DataField>, depth: nat, nodes: nat)
    requires nodes <= MAX_SETTINGS_NODES
    ensures VisitFields(fs, depth, nodes) ==
            if (forall i :: 0 <= i < |fs| ==> SafeKey(fs[i].key) && Shallow(fs[i].value, MAX_SETTINGS_DEPTH - depth))
               && nodes + CountFields(fs) <= MAX_SETTINGS_NODES
            then Some(nodes + CountFields(fs)) else None
    decreases fs, 0
  {
    if fs != [] {
      VisitCounts(fs[0].value, depth, nodes);
      if Visit(fs[0].value, depth, nodes).Some? {
        VisitFieldsCounts(fs[1..], depth, nodes + Count(fs[0].value));
      }
      assert forall i :: 0 < i < |fs| ==> fs[i] == fs[1..][i - 1];
    }
  }

  predicate ValidSettings(s: Option<Settings>) {
    s.Some? ==>
      s.value.encodedBytes <= MAX_SETTINGS_BYTES && Visit(s.value.value, 0, 0).Some? && s.value.value.Record?
  }

  /** Settings pass exactly when they are a record of at most 4096 safe values nested at most 16 deep. */
  lemma SettingsAccepted(s: Settings)
    ensures ValidSettings(Some(s)) <==>
              && s.value.Record? && s.encodedBytes <= MAX_SETTINGS_BYTES
              && Shallow(s.value, MAX_SETTINGS_DEPTH) && Count(s.value) <= MAX_SETTINGS_NODES
  {
    VisitCounts(s.value, 0, 0);
  }

  // ---- Entries and the file ----

  ghost predicate ValidEntry(e: Entry) {
    && ValidContentHash(e.contentHash) && ValidSourcePath(e.sourcePath)
    && ValidDecisions(e.permissions) && SortedByKey(e.permissions)
    && ValidSettings(e.settings)
  }

  /** Entries in strictly rising order of extension id. */
  predicate InOrder(es: seq<Entry>) {
    |es| <= 1 || (LexLess(es[0].extension, es[1].extension) && InOrder(es[1..]))
  }

  ghost predicate ValidEntries(es: seq<Entry>) {
    InOrder(es) && forall i :: 0 <= i < |es| ==> ValidEntry(es[i])
  }

  /** Inserts an entry or takes the place of the one with its id. */
  function Put(es: seq<Entry>, e: Entry): seq<Entry> {
    if es == [] || LexLess(e.extension, es[0].extension) then [e] + es
    else if e.extension == es[0].extension then [e] + es[1..]
    else [es[0]] + Put(es[1..], e)
  }

  function Without(es: seq<Entry>, id: string): seq<Entry> {
    if es == [] then [] else if es[0].extension == id then es[1..] else [es[0]] + Without(es[1..], id)
  }

  function Find(es: seq<Entry>, id: string): Option<Entry> {
    if es == [] then None else if es[0].extension == id then Some(es[0]) else Find(es[1..], id)
  }

  lemma {:induction false} PutKeeps(es: seq<Entry>, e: Entry)
    requires ValidEntries(es) && ValidEntry(e)
    ensures ValidEntries(Put(es, e))
    ensures Find(Put(es, e), e.extension) == Some(e)
    ensures forall id :: id != e.extension ==> Find(Put(es, e), id) == Find(es, id)
  {
    if es != [] {
      assert ValidEntries(es[1..]);
      LexTotal(e.extension, es[0].extension);
      PutKeeps(es[1..], e);
      assert ([e] + es)[1..] == es && ([e] + es[1..])[1..] == es[1..];
      assert ([es[0]] + Put(es[1..], e))[1..] == Put(es[1..], e);
      if |es| > 1 && e.extension == es[0].extension {
        assert ([e] + es[1..])[1] == es[1];
      }
    }
  }

  /** One entry more, unless its identifier is there already. */
  lemma {:induction false} PutCounts(es: seq<Entry>, e: Entry)
    requires InOrder(es)
    ensures |Put(es, e)| == |es| + (if Find(es, e.extension).None? then 1 else 0)
  {
    if es != [] {
      if LexLess(e.extension, es[0].extension) {
        NotAbove(es, e.extension);
      } else if e.extension != es[0].extension {
        PutCounts(es[1..], e);
      }
    }
  }

  lemma {:induction false} WithoutCounts(es: seq<Entry>, id: string)
    ensures |Without(es, id)| == |es| - (if Find(es, id).Some? then 1 else 0)
  {
    if es != [] {
      WithoutCounts(es[1..], id);
    }
  }

  lemma {:induction false} WithoutKeeps(es: seq<Entry>, id: string)
    requires ValidEntries(es)
    ensures ValidEntries(Without(es, id))
    ensures Find(Without(es, id), id) == None
    ensures forall other :: other != id ==> Find(Without(es, id), other) == Find(es, other)
    ensures Without(es, id) != [] ==> es != [] && LexLe(es[0].extension, Without(es, id)[0].extension)
    ensures |Without(es, id)| <= |es|
  {
    if es != [] {
      assert ValidEntries(es[1..]);
      LexTotal(es[0].extension, es[0].extension);
      if es[0].extension == id {
        NotAfter(es);
      } else {
        WithoutKeeps(es[1..], id);
        var rest := Without(es[1..], id);
        assert ([es[0]] + rest)[1..] == rest;
        if rest != [] {
          LexTotal(es[0].extension, es[1].extension);
          LexTotal(es[0].extension, rest[0].extension);
          LexTransitive(es[0].extension, es[1].extension, rest[0].extension);
        }
      }
    }
  }

  /** The first id of an ordered list does not come again. */
  lemma NotAfter(es: seq<Entry>)
    requires InOrder(es) && es != []
    ensures Find(es[1..], es[0].extension) == None
  {
    NotAbove(es[1..], es[0].extension);
  }

  lemma {:induction false} NotAbove(es: seq<Entry>, id: string)
    requires InOrder(es) && (es != [] ==> LexLess(id, es[0].extension))
    ensures Find(es, id) == None
  {
    if |es| > 1 {
      LexTransitive(id, es[0].extension, es[1].extension);
      LexTotal(es[0].extension, es[1].extension);
      LexTotal(id, es[0].extension);
      NotAbove(es[1..], id);
    }
  }

  datatype Document = Document(schema: nat, entries: seq<Entry>)

  /** What a file holds: a parsed document or text that does not parse, with its length. */
  datatype File = Written(document: Document, bytes: nat) | Garbage(bytes: nat)

  /** Checks one stored entry; the permissions come back sorted. */
  method ValidateWire(wire: Entry) returns (r: Result<Entry, Error>)
    ensures r.Ok? <==> && ValidContentHash(wire.contentHash) && ValidSourcePath(wire.sourcePath)
                       && ValidDecisions(wire.permissions) && ValidSettings(wire.settings)
    ensures r.Ok? ==> r.value == wire.(permissions := Sort(wire.permissions)) && ValidEntry(r.value)
  {
    if !ValidContentHash(wire.contentHash) {
      return Err(InvalidContentHash);
    }
    if !ValidSourcePath(wire.sourcePath) {
      return Err(InvalidSourcePath);
    }
    var permissions := ValidatePermissionDecisions(wire.permissions);
    if permissions.Err? {
      return Err(permissions.error);
    }
    if !ValidSettings(wire.settings) {
      return Err(InvalidSettings);
    }
    SortSorts(wire.permissions);
    SortKeepsValid(wire.permissions);
    r := Ok(wire.(permissions := permissions.value));
  }

  /** A new entry from the user; `canonical` is what resolving its source path gave, if it resolved. */
  method ValidateInput(input: Entry, canonical: Option<string>) returns (r: Result<Entry, Error>)
    ensures r.Ok? ==>
              canonical.Some? && ValidEntry(r.value)
              && r.value == input.(sourcePath := canonical.value, permissions := Sort(input.permissions))
    ensures r.Ok? <==>
              && canonical.Some? && ValidContentHash(input.contentHash) && ValidSourcePath(canonical.value)
              && ValidDecisions(input.permissions) && ValidSettings(input.settings)
    ensures canonical.Some? && ValidEntry(input.(sourcePath := canonical.value)) ==>
              r == Ok(input.(sourcePath := canonical.value))
  {
    if !ValidContentHash(input.contentHash) {
      return Err(InvalidContentHash);
    }
    if canonical.None? {
      return Err(Io);
    }
    r := ValidateWire(input.(sourcePath := canonical.value));
    if ValidEntry(input.(sourcePath := canonical.value)) {
      SortOfSorted(input.permissions);
    }
  }

  /** What a file stands for once everything in it has been checked; nothing if it would be refused. */
  ghost function Meaning(file: Option<File>): Option<seq<Entry>> {
    match file
    case None => Some([])
    case Some(Garbage(_)) => None
    case Some(Written(d, bytes)) =>
      if bytes <= MAX_REGISTRY_BYTES && d.schema == SCHEMA_VERSION && |d.entries| <= MAX_REGISTRY_ENTRIES
      then Gathered(d.entries) else None
  }

  ghost function Gathered(wires: seq<Entry>): Option<seq<Entry>> {
    if wires == [] then Some([])
    else
      var n := |wires| - 1;
      var w := wires[n];
      var before := Gathered(wires[..n]);
      if before.Some? && ValidContentHash(w.contentHash) && ValidSourcePath(w.sourcePath)
         && ValidDecisions(w.permissions) && ValidSettings(w.settings)
         && Find(before.value, w.extension) == None
      then Some(Put(before.value, w.(permissions := Sort(w.permissions)))) else None
  }

  predicate Acceptable(w: Entry) {
    && ValidContentHash(w.contentHash) && ValidSourcePath(w.sourcePath)
    && ValidDecisions(w.permissions) && ValidSettings(w.settings)
  }

  ghost predicate AllAcceptable(wires: seq<Entry>) { forall i :: 0 <= i < |wires| ==> Acceptable(wires[i]) }

  ghost predicate NoneRepeats(wires: seq<Entry>) {
    forall i, j :: 0 <= i < j < |wires| ==> wires[i].extension != wires[j].extension
  }

  ghost predicate StandsFor(es: seq<Entry>, wires: seq<Entry>) { forall id :: Find(es, id) == StoredAs(wires, id) }

  /** A list of stored entries means something exactly if each is acceptable and none repeats an identifier. */
  lemma {:induction false} GatheredMeans(wires: seq<Entry>)
    ensures Gathered(wires).Some? <==> AllAcceptable(wires) && NoneRepeats(wires)
    ensures Gathered(wires).Some? ==> ValidEntries(Gathered(wires).value) && StandsFor(Gathered(wires).value, wires)
  {
    hide ValidEntries, StandsFor, AllAcceptable, NoneRepeats, Sort, StoredAs;
    if wires == [] {
      NothingStored();
    } else {
      var n := |wires| - 1;
      GatheredMeans(wires[..n]);
      assert wires == wires[..n] + [wires[n]];
      OneMoreStored(wires[..n], wires[n]);
      if Gathered(wires[..n]).Some? {
        StoredIsFound(Gathered(wires[..n]).value, wires[..n], wires[n]);
      }
    }
  }

  lemma NothingStored()
    ensures AllAcceptable([]) && NoneRepeats([]) && ValidEntries([]) && StandsFor([], [])
  {
  }

  lemma OneMoreStored(wires: seq<Entry>, w: Entry)
    ensures AllAcceptable(wires + [w]) <==> AllAcceptable(wires) && Acceptable(w)
    ensures NoneRepeats(wires + [w]) <==> NoneRepeats(wires) && StoredAs(wires, w.extension).None?
  {
    hide Acceptable, StoredAs;
    var next := wires + [w];
    StoredAsIs(wires, w.extension);
    assert forall i :: 0 <= i < |wires| ==> next[i] == wires[i];
    assert next[|wires|] == w;
  }

  lemma StoredIsFound(es: seq<Entry>, wires: seq<Entry>, w: Entry)
    requires ValidEntries(es) && StandsFor(es, wires)
    ensures Find(es, w.extension) == StoredAs(wires, w.extension)
    ensures Acceptable(w) ==>
              var next := Put(es, w.(permissions := Sort(w.permissions)));
              ValidEntries(next) && StandsFor(next, wires + [w])
  {
    hide Sort;
    if Acceptable(w) {
      AcceptedIsValid(w);
      PutKeeps(es, w.(permissions := Sort(w.permissions)));
      assert (wires + [w])[..|wires|] == wires;
    }
  }

  lemma AcceptedIsValid(w: Entry)
    requires Acceptable(w)
    ensures ValidEntry(w.(permissions := Sort(w.permissions)))
  {
    SortSorts(w.permissions);
    SortKeepsValid(w.permissions);
  }

  /** The last stored entry of an identifier, its permissions sorted. */
  ghost function StoredAs(wires: seq<Entry>, id: string): Option<Entry> {
    if wires == [] then None
    else
      var n := |wires| - 1;
      if wires[n].extension == id then Some(wires[n].(permissions := Sort(wires[n].permissions)))
      else StoredAs(wires[..n], id)
  }

  lemma {:induction false} StoredAsIs(wires: seq<Entry>, id: string)
    ensures StoredAs(wires, id).Some? <==> exists i :: 0 <= i < |wires| && wires[i].extension == id
    ensures StoredAs(wires, id).Some? ==>
              exists i :: 0 <= i < |wires| && wires[i].extension == id
                          && StoredAs(wires, id).value == wires[i].(permissions := Sort(wires[i].permissions))
  {
    if wires != [] {
      var n := |wires| - 1;
      StoredAsIs(wires[..n], id);
      assert forall i :: 0 <= i < n ==> wires[i] == wires[..n][i];
    }
  }

  /** Reads the registry file; a missing file is an empty registry. */
  method LoadEntries(file: Option<File>) returns (r: Result<seq<Entry>, Error>)
    ensures r.Ok? <==> Meaning(file).Some?
    ensures r.Ok? ==> r.value == Meaning(file).value && ValidEntries(r.value)
  {
    if file.None? {
      return Ok([]);
    }
    if file.value.bytes > MAX_REGISTRY_BYTES {
      return Err(RegistryTooLarge);
    }
    if file.value.Garbage? {
      return Err(Json);
    }
    var document := file.value.document;
    if document.schema != SCHEMA_VERSION {
      return Err(UnsupportedSchema);
    }
    if |document.entries| > MAX_REGISTRY_ENTRIES {
      return Err(TooManyEntries);
    }
    var wires := document.entries;
    var entries := [];
    for i := 0 to |wires|
      invariant Gathered(wires[..i]) == Some(entries) && ValidEntries(entries)
    {
      GatheredOneMore(wires, i);
      var entry := ValidateWire(wires[i]);
      if entry.Err? {
        GatheredStops(wires, i + 1);
        return Err(entry.error);
      }
      if Find(entries, wires[i].extension).Some? {
        GatheredStops(wires, i + 1);
        return Err(DuplicateExtension(wires[i].extension));
      }
      PutKeeps(entries, entry.value);
      entries := Put(entries, entry.value);
    }
    assert wires[..|wires|] == wires;
    r := Ok(entries);
  }

  lemma GatheredOneMore(wires: seq<Entry>, i: nat)
    requires i < |wires|
    ensures var w, before := wires[i], Gathered(wires[..i]);
            Gathered(wires[..i + 1]) ==
            if before.Some? && ValidContentHash(w.contentHash) && ValidSourcePath(w.sourcePath)
               && ValidDecisions(w.permissions) && ValidSettings(w.settings)
               && Find(before.value, w.extension) == None
            then Some(Put(before.value, w.(permissions := Sort(w.permissions)))) else None
  {
    assert wires[..i + 1][..i] == wires[..i];
  }

  /** A refused prefix refuses the whole. */
  lemma GatheredStops(wires: seq<Entry>, i: nat)
    requires i <= |wires| && Gathered(wires[..i]) == None
    ensures Gathered(wires) == None
    decreases |wires| - i
  {
    if i < |wires| {
      GatheredOneMore(wires, i);
      GatheredStops(wires, i + 1);
    } else {
      assert wires[..i] == wires;
    }
  }

  lemma {:induction false} PutAtEnd(es: seq<Entry>, e: Entry)
    requires InOrder(es + [e])
    ensures Put(es, e) == es + [e] && Find(es, e.extension) == None
  {
    if es != [] {
      assert (es + [e])[1..] == es[1..] + [e];
      PutAtEnd(es[1..], e);
      FirstIsBelow(es, e);
      LexTotal(e.extension, es[0].extension);
    }
  }

  lemma {:induction false} FirstIsBelow(es: seq<Entry>, e: Entry)
    requires InOrder(es + [e]) && es != []
    ensures LexLess(es[0].extension, e.extension)
  {
    if |es| > 1 {
      assert (es + [e])[1..] == es[1..] + [e];
      FirstIsBelow(es[1..], e);
      LexTransitive(es[0].extension, es[1].extension, e.extension);
      LexTotal(es[0].extension, es[1].extension);
    }
  }

  lemma {:induction false} OrderedPrefix(es: seq<Entry>, n: nat)
    requires InOrder(es) && n <= |es|
    ensures InOrder(es[..n])
  {
    if n > 1 {
      OrderedPrefix(es[1..], n - 1);
      assert es[..n][1..] == es[1..][..n - 1];
    }
  }

  /** Reading back what was written gives the same entries. */
  lemma {:induction false} GatheredIsIdentity(es: seq<Entry>)
    requires ValidEntries(es)
    ensures Gathered(es) == Some(es)
  {
    if es != [] {
      var n := |es| - 1;
      assert es == es[..n] + [es[n]];
      OrderedPrefix(es, n);
      GatheredIsIdentity(es[..n]);
      PutAtEnd(es[..n], es[n]);
      SortOfSorted(es[n].permissions);
    }
  }

  function Serialized(es: seq<Entry>, bytes: nat): File { Written(Document(SCHEMA_VERSION, es), bytes) }

  lemma LoadAfterPersist(es: seq<Entry>, bytes: nat)
    requires ValidEntries(es) && |es| <= MAX_REGISTRY_ENTRIES && bytes <= MAX_REGISTRY_BYTES
    ensures Meaning(Some(Serialized(es, bytes))) == Some(es)
  {
    GatheredIsIdentity(es);
  }
}
