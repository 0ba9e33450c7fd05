/** options.rs: connection options, the query pairs they print to, and the pairs they are read from. */
module Options {
  import opened Prelude
  import opened Decimal

  datatype Target = Memory(name: string) | File(path: string)

  datatype OpenMode = ReadWrite | CreateIfMissing | ReadOnly

  datatype CacheMode = Private | Shared

  datatype Encryption = Encryption(cipher: string, hexkey: string)

  /** The timeout is in nanoseconds. */
  datatype Sync = Sync(
    remoteUrl: string, authToken: Option<string>, clientName: Option<string>,
    longPollTimeout: Option<nat>, bootstrapIfEmpty: bool)

  datatype Feature =
    | Attach | CustomTypes | GeneratedColumns | IndexMethod
    | MaterializedViews | MultiprocessWal | Vacuum | WithoutRowid

  type Pragma = (string, Option<string>)

  /** `memoryState` identifies the shared in-memory database slot, `customIo` a custom backend. */
  datatype ConnectOptions = ConnectOptions(
    target: Target,
    openMode: OpenMode,
    cacheMode: CacheMode,
    immutable: bool,
    vfs: Option<string>,
    customIo: Option<nat>,
    encryption: Option<Encryption>,
    sync: Option<Sync>,
    features: set<Feature>,
    pragmas: seq<Pragma>,
    memoryState: nat)

  /** How many in-memory targets, and memory states, have been made so far. */
  datatype World = World(targets: nat, states: nat)

  datatype OptionsError =
    | UnknownValue(key: string, value: string)
    | UnknownParameter(key: string)
    | UnsupportedAutovacuum
    | UnknownFeature(name: string)
    | InvalidNumber(value: string)
    | InvalidEncryption
    | IncompleteEncryption
    | MissingRemoteUrl

  const NANOS_PER_MILLI := 1_000_000

  /** The counter behind the names is a wrapping 64-bit usize. */
  function MemoryName(n: nat): string {
    "sqlx-turso-in-memory-" + Print(n % U64_LIMIT)
  }

  const DEFAULT_PRAGMAS: seq<Pragma> := [
    ("key", None), ("cipher_plaintext_header_size", None), ("cipher_salt", None), ("kdf_iter", None),
    ("cipher_kdf_algorithm", None), ("cipher_use_hmac", None),
    ("cipher_compatibility", None), ("cipher_page_size", None),
    ("cipher_hmac_algorithm", None), ("page_size", None), ("locking_mode", None), ("auto_vacuum", None),
    ("journal_mode", None), ("foreign_keys", Some("ON")), ("synchronous", None), ("analysis_limit", None)]

  /* The builder methods. Each returns the world after it where it makes an in-memory target. */

  function Default(w: World): (ConnectOptions, World) {
    (ConnectOptions(Memory(MemoryName(w.targets)), ReadWrite, Shared, false, None, None, None, None, {},
                    DEFAULT_PRAGMAS, w.states),
     World(w.targets + 1, w.states + 1))
  }

  function WithFilename(o: ConnectOptions, path: string): ConnectOptions {
    o.(target := File(path), cacheMode := Private)
  }

  function InMemory(w: World, o: ConnectOptions, inMemory: bool): (ConnectOptions, World) {
    if inMemory then
      (o.(target := Memory(MemoryName(w.targets)), cacheMode := Shared, memoryState := w.states),
       World(w.targets + 1, w.states + 1))
    else if o.target.Memory? then (WithFilename(o, ":memory:"), w)
    else (o, w)
  }

  function WithReadOnly(o: ConnectOptions, readOnly: bool): ConnectOptions {
    if readOnly then o.(openMode := ReadOnly)
    else if o.openMode == ReadOnly then o.(openMode := ReadWrite)
    else o
  }

  function WithCreateIfMissing(o: ConnectOptions, create: bool): ConnectOptions {
    if create then o.(openMode := CreateIfMissing)
    else if o.openMode == CreateIfMissing then o.(openMode := ReadWrite)
    else o
  }

  function WithSharedCache(o: ConnectOptions, shared: bool): ConnectOptions {
    o.(cacheMode := if shared then Shared else Private)
  }

  function WithVfs(o: ConnectOptions, vfs: string): ConnectOptions {
    o.(vfs := Some(vfs), customIo := None)
  }

  function WithFeature(o: ConnectOptions, feature: Feature): ConnectOptions {
    o.(features := o.features + {feature})
  }

  /** What the getters say after the builders. Leaving memory gives a private file called `:memory:`. */
  lemma BuildersAreRead(w: World, o: ConnectOptions, path: string, b: bool)
    ensures var (d, world) := Default(w);
            d.target.Memory? && d.cacheMode == Shared && d.openMode == ReadWrite && world.states == w.states + 1
    ensures InMemory(w, o, true).0 ==
            o.(target := Memory(MemoryName(w.targets)), cacheMode := Shared, memoryState := w.states)
    ensures InMemory(w, o, false) ==
            (if o.target.Memory? then o.(target := File(":memory:"), cacheMode := Private) else o, w)
    ensures WithFilename(o, path) == o.(target := File(path), cacheMode := Private)
    ensures WithReadOnly(o, b).openMode.ReadOnly? <==> b
    ensures WithReadOnly(o, b).openMode.CreateIfMissing? <==> !b && o.openMode.CreateIfMissing?
    ensures WithCreateIfMissing(o, b).openMode.CreateIfMissing? <==> b
    ensures WithCreateIfMissing(o, b).openMode.ReadOnly? <==> !b && o.openMode.ReadOnly?
  {}

  /** The first pragma of that name, if any. */
  function FindPragma(pragmas: seq<Pragma>, key: string): (i: nat)
    ensures i <= |pragmas| && (i < |pragmas| ==> pragmas[i].0 == key)
    ensures forall k :: 0 <= k < i ==> pragmas[k].0 != key
  {
    if pragmas == [] || pragmas[0].0 == key then 0 else 1 + FindPragma(pragmas[1..], key)
  }

  function WithPragma(o: ConnectOptions, key: string, value: Option<string>): ConnectOptions {
    var i := FindPragma(o.pragmas, key);
    o.(pragmas := if i < |o.pragmas| then o.pragmas[i := (key, value)] else o.pragmas + [(key, value)])
  }

  function WithMvcc(o: ConnectOptions, enabled: bool): ConnectOptions {
    WithPragma(o, "journal_mode", if enabled then Some("'mvcc'") else None)
  }

  predicate IsHexDigit(ch: char) { IsDigit(ch) || 'a' <= ch <= 'f' || 'A' <= ch <= 'F' }

  predicate IsEncryption(e: Encryption) {
    && e.cipher != "" && e.hexkey != "" && |e.hexkey| % 2 == 0
    && forall i :: 0 <= i < |e.hexkey| ==> IsHexDigit(e.hexkey[i])
  }

  /* Reading query pairs. */

  function FeatureName(feature: Feature): string {
    match feature
    case Attach => "attach"
    case CustomTypes => "custom_types"
    case GeneratedColumns => "generated_columns"
    case IndexMethod => "index_method"
    case MaterializedViews => "views"
    case MultiprocessWal => "multiprocess_wal"
    case Vacuum => "vacuum"
    case WithoutRowid => "without_rowid"
  }

  function ParseFeature(name: string): Option<Feature> {
    if name == "attach" then Some(Attach)
    else if name == "custom_types" then Some(CustomTypes)
    else if name == "generated_columns" then Some(GeneratedColumns)
    else if name == "index_method" then Some(IndexMethod)
    else if name == "views" || name == "materialized_views" then Some(MaterializedViews)
    else if name == "multiprocess_wal" then Some(MultiprocessWal)
    else if name == "vacuum" then Some(Vacuum)
    else if name == "without_rowid" then Some(WithoutRowid)
    else None
  }

  /** The text before the first comma. */
  function UpToComma(s: string): (head: string)
    ensures |head| <= |s|
  {
    if s == "" || s[0] == ',' then "" else [s[0]] + UpToComma(s[1..])
  }

  function SplitCommas(s: string): seq<string>
    decreases |s|
  {
    var head := UpToComma(s);
    if |head| == |s| then [head] else [head] + SplitCommas(s[|head| + 1..])
  }

  function AddFeatures(o: ConnectOptions, names: seq<string>): Result<ConnectOptions, OptionsError>
    decreases |names|
  {
    if names == [] then Success(o)
    else if names[0] == "" then AddFeatures(o, names[1..])
    else if ParseFeature(names[0]).None? then Failure(UnknownFeature(names[0]))
    else AddFeatures(WithFeature(o, ParseFeature(names[0]).value), names[1..])
  }

  function ParseBool(key: string, value: string): Result<bool, OptionsError> {
    if value == "true" || value == "1" then Success(true)
    else if value == "false" || value == "0" then Success(false)
    else Failure(UnknownValue(key, value))
  }

  /** A u64: digits with an optional plus sign, in range. */
  function ParseU64(s: string): Option<nat> {
    ParseDigits(if s != "" && s[0] == '+' then s[1..] else s)
  }

  function ParseDigits(digits: string): Option<nat> {
    if digits != "" && (forall i :: 0 <= i < |digits| ==> IsDigit(digits[i])) && Value(digits) < U64_LIMIT then
      Some(Value(digits))
    else None
  }

  function TrimQuotes(s: string): string
    decreases |s|
  {
    if s != "" && (s[0] == '\'' || s[0] == '"') then TrimQuotes(s[1..])
    else if s != "" && (s[|s| - 1] == '\'' || s[|s| - 1] == '"') then TrimQuotes(s[..|s| - 1])
    else s
  }

  predicate IsMvcc(value: string) {
    var v := TrimQuotes(value);
    && |v| == 4 && v[0] in ['m', 'M'] && v[1] in ['v', 'V'] && v[2] in ['c', 'C'] && v[3] in ['c', 'C']
  }

  const DEFAULT_SYNC := Sync("", None, None, None, true)

  /** The locals of the reading loop. */
  datatype Reading = Reading(
    world: World, options: ConnectOptions, cipher: Option<string>, hexkey: Option<string>, sync: Option<Sync>)

  function SyncSoFar(r: Reading): Sync {
    if r.sync.Some? then r.sync.value else DEFAULT_SYNC
  }

  function ReadPair(r: Reading, key: string, value: string): Result<Reading, OptionsError> {
    var o := r.options;
    if key == "mode" then
      if value == "ro" then Success(r.(options := WithReadOnly(o, true)))
      else if value == "rw" then Success(r)
      else if value == "rwc" then Success(r.(options := WithCreateIfMissing(o, true)))
      else if value == "memory" then
        var (options, world) := InMemory(r.world, o, true);
        Success(r.(options := options, world := world))
      else Failure(UnknownValue(key, value))
    else if key == "cache" then
      if value == "private" then Success(r.(options := WithSharedCache(o, false)))
      else if value == "shared" then Success(r.(options := WithSharedCache(o, true)))
      else Failure(UnknownValue(key, value))
    else if key == "immutable" then
      var b := ParseBool(key, value);
      if b.Failure? then Failure(b.error) else Success(r.(options := o.(immutable := b.value)))
    else if key == "vfs" then Success(r.(options := WithVfs(o, value)))
    else if key == "encryption_cipher" then Success(r.(cipher := Some(value)))
    else if key == "encryption_hexkey" then Success(r.(hexkey := Some(value)))
    else if key == "journal_mode" then
      Success(r.(options := if IsMvcc(value) then WithMvcc(o, true) else WithPragma(o, key, Some(value))))
    else if key == "auto_vacuum" then Failure(UnsupportedAutovacuum)
    else if key == "experimental" then
      var added := AddFeatures(o, SplitCommas(value));
      if added.Failure? then Failure(added.error) else Success(r.(options := added.value))
    else ReadSyncPair(r, key, value)
  }

  function ReadSyncPair(r: Reading, key: string, value: string): (after: Result<Reading, OptionsError>)
    ensures after.Success? ==> after.value.options == r.options && after.value.world == r.world
  {
    if key == "sync_remote_url" then Success(r.(sync := Some(DEFAULT_SYNC.(remoteUrl := value))))
    else if key == "sync_auth_token" then Success(r.(sync := Some(SyncSoFar(r).(authToken := Some(value)))))
    else if key == "sync_client_name" then Success(r.(sync := Some(SyncSoFar(r).(clientName := Some(value)))))
    else if key == "sync_long_poll_timeout_ms" then
      var millis := ParseU64(value);
      if millis.None? then Failure(InvalidNumber(value))
      else Success(r.(sync := Some(SyncSoFar(r).(longPollTimeout := Some(millis.value * NANOS_PER_MILLI)))))
    else if key == "sync_bootstrap_if_empty" then
      var b := ParseBool(key, value);
      if b.Failure? then Failure(b.error) else Success(r.(sync := Some(SyncSoFar(r).(bootstrapIfEmpty := b.value))))
    else Failure(UnknownParameter(key))
  }

  type Pair = (string, string)

  function ReadPairs(r: Reading, pairs: seq<Pair>): Result<Reading, OptionsError>
    decreases |pairs|
  {
    if pairs == [] then Success(r)
    else
      var next := ReadPair(r, pairs[0].0, pairs[0].1);
      if next.Failure? then next else ReadPairs(next.value, pairs[1..])
  }

  function Start(w: World, o: ConnectOptions): Reading {
    Reading(w, o, if o.encryption.Some? then Some(o.encryption.value.cipher) else None,
            if o.encryption.Some? then Some(o.encryption.value.hexkey) else None, o.sync)
  }

  function Finish(r: Reading): Result<ConnectOptions, OptionsError> {
    if r.cipher.Some? != r.hexkey.Some? then Failure(IncompleteEncryption)
    else if r.cipher.Some? && !IsEncryption(Encryption(r.cipher.value, r.hexkey.value)) then Failure(InvalidEncryption)
    else if r.sync.Some? && r.sync.value.remoteUrl == "" then Failure(MissingRemoteUrl)
    else
      var o := if r.cipher.Some? then
               r.options.(encryption := Some(Encryption(r.cipher.value, r.hexkey.value)))
               else r.options;
      Success(if r.sync.Some? then o.(sync := r.sync) else o)
  }

  function Read(w: World, o: ConnectOptions, pairs: seq<Pair>): Result<ConnectOptions, OptionsError> {
    var r := ReadPairs(Start(w, o), pairs);
    if r.Failure? then Failure(r.error) else Finish(r.value)
  }

  method ApplyQueryParams(w: World, o: ConnectOptions, pairs: seq<Pair>)
    returns (r: Result<ConnectOptions, OptionsError>)
    ensures r == Read(w, o, pairs)
  {
    var reading := Start(w, o);
    for i := 0 to |pairs|
      invariant ReadPairs(Start(w, o), pairs) == ReadPairs(reading, pairs[i..])
    {
      var next := ReadPair(reading, pairs[i].0, pairs[i].1);
      assert pairs[i..][1..] == pairs[i + 1..];
      if next.Failure? {
        return Failure(next.error);
      }
      reading := next.value;
    }
    return Finish(reading);
  }

  /* Printing query pairs. */

  const FEATURES := [
    Attach, CustomTypes, GeneratedColumns, IndexMethod, MaterializedViews, MultiprocessWal, Vacuum, WithoutRowid]

  function EnabledNames(features: set<Feature>, order: seq<Feature>): seq<string> {
    if order == [] then []
    else (if order[0] in features then [FeatureName(order[0])] else []) + EnabledNames(features, order[1..])
  }

  function JoinCommas(names: seq<string>): string {
    if names == [] then "" else if |names| == 1 then names[0] else names[0] + "," + JoinCommas(names[1..])
  }

  function ModePair(o: ConnectOptions): Pair {
    ("mode", if o.target.Memory? then "memory"
             else match o.openMode case ReadWrite => "rw" case CreateIfMissing => "rwc" case ReadOnly => "ro")
  }

  function OptionalPair(key: string, value: Option<string>): seq<Pair> {
    if value.Some? then [(key, value.value)] else []
  }

  function EncryptionPairs(o: ConnectOptions): seq<Pair> {
    if o.encryption.None? then []
    else [("encryption_cipher", o.encryption.value.cipher), ("encryption_hexkey", o.encryption.value.hexkey)]
  }

  function SyncPairs(sync: Sync): seq<Pair> {
    [("sync_remote_url", sync.remoteUrl)] + OptionalPair("sync_auth_token", sync.authToken)
    + OptionalPair("sync_client_name", sync.clientName)
    + OptionalPair("sync_long_poll_timeout_ms",
                   if sync.longPollTimeout.Some?
                   then Some(Print(sync.longPollTimeout.value / NANOS_PER_MILLI)) else None)
    + OptionalPair("sync_bootstrap_if_empty", if sync.bootstrapIfEmpty then None else Some("false"))
  }

  function LocalPairs(o: ConnectOptions): seq<Pair> {
    [ModePair(o), ("cache", if o.cacheMode.Private? then "private" else "shared")]
    + OptionalPair("immutable", if o.immutable then Some("true") else None)
    + OptionalPair("vfs", o.vfs)
    + EncryptionPairs(o)
  }

  /** The query part of the URL. */
  function QueryPairs(o: ConnectOptions): seq<Pair> {
    var names := JoinCommas(EnabledNames(o.features, FEATURES));
    LocalPairs(o)
    + (if o.sync.Some? then SyncPairs(o.sync.value) else [])
    + OptionalPair("experimental", if names != "" then Some(names) else None)
  }

  /* The round trip. */

  /** The fields that the URL represents. */
  predicate SameInUrl(a: ConnectOptions, b: ConnectOptions) {
    && a.target == b.target && a.openMode == b.openMode && a.cacheMode == b.cacheMode && a.immutable == b.immutable
    && a.vfs == b.vfs && a.encryption == b.encryption && a.sync == b.sync && a.features == b.features
  }

  /** Sync settings survive when there is a remote URL and the timeout is a whole number of milliseconds in u64. */
  predicate IsPrintable(sync: Sync) {
    && sync.remoteUrl != ""
    && (sync.longPollTimeout.Some? ==>
          sync.longPollTimeout.value % NANOS_PER_MILLI == 0 && sync.longPollTimeout.value / NANOS_PER_MILLI < U64_LIMIT)
  }

  lemma {:induction false} ReadPairsConcat(r: Reading, a: seq<Pair>, b: seq<Pair>)
    ensures ReadPairs(r, a + b) ==
            var first := ReadPairs(r, a);
            if first.Failure? then first else ReadPairs(first.value, b)
    decreases |a|
  {
    if a == [] {
      assert a + b == b;
    } else {
      var next := ReadPair(r, a[0].0, a[0].1);
      assert (a + b)[1..] == a[1..] + b;
      if next.Success? {
        ReadPairsConcat(next.value, a[1..], b);
      }
    }
  }

  lemma ReadOne(r: Reading, key: string, value: string)
    ensures ReadPairs(r, [(key, value)]) == ReadPair(r, key, value)
  {
    var next := ReadPair(r, key, value);
    if next.Success? {
      assert ReadPairs(next.value, [(key, value)][1..]) == next;
    }
  }

  /* The list of features. */

  lemma {:induction false} HeadOfJoin(name: string, rest: string)
    requires ',' !in name
    ensures UpToComma(name) == name && UpToComma(name + "," + rest) == name
  {
    if name == "" {
      assert (name + "," + rest)[0] == ',';
    } else {
      HeadOfJoin(name[1..], rest);
      assert (name + "," + rest)[1..] == name[1..] + "," + rest;
    }
  }

  lemma {:induction false} SplitUndoesJoin(names: seq<string>)
    requires names != [] && forall name :: name in names ==> ',' !in name
    ensures SplitCommas(JoinCommas(names)) == names
    decreases |names|
  {
    if |names| == 1 {
      HeadOfJoin(names[0], "");
    } else {
      var rest := JoinCommas(names[1..]);
      HeadOfJoin(names[0], rest);
      assert (names[0] + "," + rest)[|names[0]| + 1..] == rest;
      SplitUndoesJoin(names[1..]);
    }
  }

  lemma FeatureNames(feature: Feature)
    ensures ParseFeature(FeatureName(feature)) == Some(feature) &&
            FeatureName(feature) != "" && ',' !in FeatureName(feature)
  {}

  lemma {:induction false} EnabledNamesArePlain(features: set<Feature>, order: seq<Feature>)
    ensures forall name :: name in EnabledNames(features, order) ==> ',' !in name && name != ""
  {
    if order != [] {
      FeatureNames(order[0]);
      EnabledNamesArePlain(features, order[1..]);
    }
  }

  ghost function Enabled(features: set<Feature>, order: seq<Feature>): set<Feature> {
    set f | f in order && f in features
  }

  lemma {:induction false} AddEnabled(o: ConnectOptions, features: set<Feature>, order: seq<Feature>)
    ensures AddFeatures(o, EnabledNames(features, order)) ==
            Success(o.(features := o.features + Enabled(features, order)))
    decreases |order|
  {
    if order == [] {
      assert o.features + Enabled(features, order) == o.features;
      assert o.(features := o.features) == o;
    } else {
      var rest := EnabledNames(features, order[1..]);
      if order[0] in features {
        FeatureNames(order[0]);
        var next := WithFeature(o, order[0]);
        assert EnabledNames(features, order)[1..] == rest;
        AddEnabled(next, features, order[1..]);
        assert next.features + Enabled(features, order[1..]) == o.features + Enabled(features, order);
      } else {
        assert EnabledNames(features, order) == rest;
        AddEnabled(o, features, order[1..]);
        assert Enabled(features, order[1..]) == Enabled(features, order);
      }
    }
  }

  lemma EveryFeature(f: Feature)
    ensures f in FEATURES
  {
    assert FEATURES[0] == Attach && FEATURES[1] == CustomTypes;
    assert FEATURES[2] == GeneratedColumns && FEATURES[3] == IndexMethod;
    assert FEATURES[4] == MaterializedViews && FEATURES[5] == MultiprocessWal;
    assert FEATURES[6] == Vacuum && FEATURES[7] == WithoutRowid;
  }

  lemma FeaturesRoundTrip(r: Reading, features: set<Feature>)
    requires r.options.features == {}
    ensures var names := JoinCommas(EnabledNames(features, FEATURES));
            ReadPairs(r, OptionalPair("experimental", if names != "" then Some(names) else None)) ==
            Success(r.(options := r.options.(features := features)))
  {
    var list := EnabledNames(features, FEATURES);
    AddEnabled(r.options, features, FEATURES);
    EnabledNamesArePlain(features, FEATURES);
    forall f: Feature ensures f in FEATURES {
      EveryFeature(f);
    }
    assert {} + Enabled(features, FEATURES) == features;
    ExperimentalReads(r, list);
  }

  lemma JoinIsVisible(list: seq<string>)
    requires list != [] && forall name :: name in list ==> name != ""
    ensures JoinCommas(list) != ""
  {
    assert list[0] in list;
  }

  lemma ExperimentalReads(r: Reading, list: seq<string>)
    requires forall name :: name in list ==> ',' !in name && name != ""
    requires AddFeatures(r.options, list).Success?
    ensures ReadPairs(r, OptionalPair("experimental",
                                      if JoinCommas(list) != "" then Some(JoinCommas(list)) else None)) ==
            Success(r.(options := AddFeatures(r.options, list).value))
  {
    if list == [] {
      assert r.(options := r.options) == r;
    } else {
      SplitUndoesJoin(list);
      JoinIsVisible(list);
      ReadOne(r, "experimental", JoinCommas(list));
    }
  }

  lemma ParseUndoesPrint(n: nat)
    ensures ParseU64(Print(n)) == if n < U64_LIMIT then Some(n) else None
  {
    assert IsDigit(Print(n)[0]);
  }

  function Milliseconds(sync: Sync): nat {
    if sync.longPollTimeout.Some? then sync.longPollTimeout.value / NANOS_PER_MILLI else 0
  }

  /** What survives of sync settings: the timeout to the millisecond. */
  function Rounded(sync: Sync): Sync {
    sync.(longPollTimeout := if sync.longPollTimeout.Some? then Some(Milliseconds(sync) * NANOS_PER_MILLI) else None)
  }

  lemma OptionalReads(r: Reading, key: string, value: Option<string>)
    ensures ReadPairs(r, OptionalPair(key, value)) == if value.Some? then ReadPair(r, key, value.value) else Success(r)
  {
    if value.Some? {
      ReadOne(r, key, value.value);
    }
  }

  lemma SyncReads(r: Reading, sync: Sync)
    ensures ReadPairs(r, SyncPairs(sync)) ==
            if Milliseconds(sync) < U64_LIMIT then Success(r.(sync := Some(Rounded(sync))))
            else Failure(InvalidNumber(Print(Milliseconds(sync))))
  {
    var remote := [("sync_remote_url", sync.remoteUrl)];
    var token := OptionalPair("sync_auth_token", sync.authToken);
    var client := OptionalPair("sync_client_name", sync.clientName);
    var millis := if sync.longPollTimeout.Some? then Some(Print(Milliseconds(sync))) else None;
    var timeout := OptionalPair("sync_long_poll_timeout_ms", millis);
    var empty := if sync.bootstrapIfEmpty then None else Some("false");
    var bootstrap := OptionalPair("sync_bootstrap_if_empty", empty);
    ReadPairsConcat(r, remote + token + client + timeout, bootstrap);
    ReadPairsConcat(r, remote + token + client, timeout);
    ReadPairsConcat(r, remote + token, client);
    ReadPairsConcat(r, remote, token);
    var s0 := DEFAULT_SYNC.(remoteUrl := sync.remoteUrl);
    var s1 := s0.(authToken := sync.authToken);
    var s2 := s1.(clientName := sync.clientName);
    var s3 := s2.(longPollTimeout := Rounded(sync).longPollTimeout);
    ReadOne(r, "sync_remote_url", sync.remoteUrl);
    OptionalReads(r.(sync := Some(s0)), "sync_auth_token", sync.authToken);
    OptionalReads(r.(sync := Some(s1)), "sync_client_name", sync.clientName);
    OptionalReads(r.(sync := Some(s2)), "sync_long_poll_timeout_ms", millis);
    OptionalReads(r.(sync := Some(s3)), "sync_bootstrap_if_empty", empty);
    ParseUndoesPrint(Milliseconds(sync));
  }

  lemma EncryptionReads(r: Reading, o: ConnectOptions)
    requires r.cipher == None && r.hexkey == None
    ensures ReadPairs(r, EncryptionPairs(o)) ==
            Success(r.(cipher := if o.encryption.Some? then Some(o.encryption.value.cipher) else None,
                       hexkey := if o.encryption.Some? then Some(o.encryption.value.hexkey) else None))
  {
    if o.encryption.Some? {
      var cipher := [("encryption_cipher", o.encryption.value.cipher)];
      var hexkey := [("encryption_hexkey", o.encryption.value.hexkey)];
      assert EncryptionPairs(o) == cipher + hexkey;
      ReadPairsConcat(r, cipher, hexkey);
      ReadOne(r, "encryption_cipher", o.encryption.value.cipher);
      ReadOne(r.(cipher := Some(o.encryption.value.cipher)), "encryption_hexkey", o.encryption.value.hexkey);
    }
  }

  /** Fresh options for a path, before any pair has been read. */
  function FreshFile(w: World, path: string): Reading {
    var (o, world) := Default(w);
    Start(world, WithFilename(o, path))
  }

  lemma FirstPairsRead(r: Reading, o: ConnectOptions)
    requires o.target.File? && r.options.openMode == ReadWrite
    ensures ReadPairs(r, [ModePair(o), ("cache", if o.cacheMode.Private? then "private" else "shared")]) ==
            Success(r.(options := r.options.(openMode := o.openMode, cacheMode := o.cacheMode)))
  {
    var cache := if o.cacheMode.Private? then "private" else "shared";
    assert [ModePair(o), ("cache", cache)] == [ModePair(o)] + [("cache", cache)];
    ReadPairsConcat(r, [ModePair(o)], [("cache", cache)]);
    ReadOne(r, "mode", ModePair(o).1);
    assert ReadPair(r, "mode", ModePair(o).1) == Success(r.(options := r.options.(openMode := o.openMode)));
    ReadOne(r.(options := r.options.(openMode := o.openMode)), "cache", cache);
  }

  /** Nothing that a URL represents has been set yet, except the target and the cache. */
  predicate IsBlank(r: Reading) {
    && r.options.openMode == ReadWrite && !r.options.immutable && r.options.features == {}
    && r.options.vfs == None && r.options.customIo == None
    && r.options.encryption == None && r.options.sync == None
    && r.cipher == None && r.hexkey == None && r.sync == None
  }

  /** What the pairs before the sync settings are read as. */
  function LocalReading(r: Reading, o: ConnectOptions): Reading {
    r.(options := r.options.(openMode := o.openMode, cacheMode := o.cacheMode, immutable := o.immutable, vfs := o.vfs),
       cipher := if o.encryption.Some? then Some(o.encryption.value.cipher) else None,
       hexkey := if o.encryption.Some? then Some(o.encryption.value.hexkey) else None)
  }

  lemma LocalPairsRead(r: Reading, o: ConnectOptions)
    requires o.target.File? && IsBlank(r)
    ensures ReadPairs(r, LocalPairs(o)) == Success(LocalReading(r, o))
  {
    var first := [ModePair(o), ("cache", if o.cacheMode.Private? then "private" else "shared")];
    var immutable := OptionalPair("immutable", if o.immutable then Some("true") else None);
    var vfs := OptionalPair("vfs", o.vfs);
    ReadPairsConcat(r, first + immutable + vfs, EncryptionPairs(o));
    ReadPairsConcat(r, first + immutable, vfs);
    ReadPairsConcat(r, first, immutable);
    FirstPairsRead(r, o);
    var r1 := r.(options := r.options.(openMode := o.openMode, cacheMode := o.cacheMode));
    OptionalReads(r1, "immutable", if o.immutable then Some("true") else None);
    var r2 := r1.(options := r1.options.(immutable := o.immutable));
    OptionalReads(r2, "vfs", o.vfs);
    var r3 := r2.(options := r2.options.(vfs := o.vfs));
    EncryptionReads(r3, o);
  }

  lemma AllPairsRead(r: Reading, o: ConnectOptions)
    requires o.target.File? && IsBlank(r)
    ensures var local := LocalReading(r, o);
            ReadPairs(r, QueryPairs(o)) ==
            if o.sync.Some? && Milliseconds(o.sync.value) >= U64_LIMIT then
              Failure(InvalidNumber(Print(Milliseconds(o.sync.value))))
            else
              Success(local.(options := local.options.(features := o.features),
                             sync := if o.sync.Some? then Some(Rounded(o.sync.value)) else None))
  {
    var local := LocalReading(r, o);
    var names := JoinCommas(EnabledNames(o.features, FEATURES));
    var sync := if o.sync.Some? then SyncPairs(o.sync.value) else [];
    ReadPairsConcat(r, LocalPairs(o) + sync, OptionalPair("experimental", if names != "" then Some(names) else None));
    ReadPairsConcat(r, LocalPairs(o), sync);
    LocalPairsRead(r, o);
    if o.sync.Some? {
      SyncReads(local, o.sync.value);
    }
    if o.sync.None? || Milliseconds(o.sync.value) < U64_LIMIT {
      var synced := local.(sync := if o.sync.Some? then Some(Rounded(o.sync.value)) else None);
      assert ReadPairs(local, sync) == Success(synced);
      FeaturesRoundTrip(synced, o.features);
    }
  }

  /** What reading the printed pairs into fresh file options gives. */
  function Reread(w: World, path: string, o: ConnectOptions): Result<ConnectOptions, OptionsError> {
    var (blank, world) := Default(w);
    Read(world, WithFilename(blank, path), QueryPairs(o))
  }

  lemma Finished(r: Reading, encryption: Option<Encryption>)
    requires r.cipher == (if encryption.Some? then Some(encryption.value.cipher) else None)
    requires r.hexkey == (if encryption.Some? then Some(encryption.value.hexkey) else None)
    requires (encryption.Some? ==> IsEncryption(encryption.value)) &&
             r.options.encryption == None && r.options.sync == None
    ensures Finish(r) == if r.sync.Some? && r.sync.value.remoteUrl == "" then Failure(MissingRemoteUrl)
                         else Success(r.options.(encryption := encryption, sync := r.sync))
  {}

  lemma RoundingIsExact(sync: Sync)
    ensures Rounded(sync) == sync <==> sync.longPollTimeout.Some? ==> sync.longPollTimeout.value % NANOS_PER_MILLI == 0
  {}

  /** Printing file options and reading them back restores every field that the URL represents exactly
      when their sync settings, if any, are printable; nothing else stands in the way. */
  lemma QueryRoundTrip(w: World, path: string, o: ConnectOptions)
    requires o.target == File(path) && (o.encryption.Some? ==> IsEncryption(o.encryption.value))
    ensures var back := Reread(w, path, o);
            (back.Success? && SameInUrl(back.value, o)) <==> (o.sync.Some? ==> IsPrintable(o.sync.value))
  {
    AllPairsRead(FreshFile(w, path), o);
    if o.sync.None? || Milliseconds(o.sync.value) < U64_LIMIT {
      var done := ReadPairs(FreshFile(w, path), QueryPairs(o)).value;
      Finished(done, o.encryption);
      if o.sync.Some? {
        RoundingIsExact(o.sync.value);
      }
    }
  }

  /** The options of `:memory:` before any pair is read. */
  function FreshMemory(w: World): (ConnectOptions, World) {
    var (o, world) := Default(w);
    InMemory(world, o, true)
  }

  /** The pairs after the mode depend on neither the target nor the access. */
  lemma PairsAfterMode(o: ConnectOptions, like: ConnectOptions)
    requires like == o.(target := like.target, openMode := like.openMode)
    ensures QueryPairs(o)[0] == ModePair(o) && QueryPairs(o)[1..] == QueryPairs(like)[1..]
  {
    LocalPairsAfterMode(o, like);
    var names := JoinCommas(EnabledNames(o.features, FEATURES));
    var sync := if o.sync.Some? then SyncPairs(o.sync.value) else [];
    var experimental := OptionalPair("experimental", if names != "" then Some(names) else None);
    TailOfConcat(LocalPairs(o), sync, experimental);
    TailOfConcat(LocalPairs(like), sync, experimental);
  }

  lemma TailOfConcat(a: seq<Pair>, b: seq<Pair>, c: seq<Pair>)
    requires a != []
    ensures (a + b + c)[0] == a[0] && (a + b + c)[1..] == a[1..] + b + c
  {}

  lemma LocalPairsAfterMode(o: ConnectOptions, like: ConnectOptions)
    requires like == o.(target := like.target, openMode := like.openMode)
    ensures LocalPairs(o)[0] == ModePair(o) && LocalPairs(o)[1..] == LocalPairs(like)[1..]
    ensures |LocalPairs(o)| == |LocalPairs(like)|
  {
    var cache := [("cache", if o.cacheMode.Private? then "private" else "shared")];
    var tail := OptionalPair("immutable", if o.immutable then Some("true") else None)
                + OptionalPair("vfs", o.vfs) + EncryptionPairs(o);
    assert LocalPairs(o) == [ModePair(o)] + (cache + tail);
    assert LocalPairs(like) == [ModePair(like)] + (cache + tail);
  }

  /** In-memory options come back with every other field that the URL represents, exactly when their sync
      settings are printable, but as a database of their own: its name and state are new. */
  lemma MemoryRoundTrip(w: World, o: ConnectOptions)
    requires o.target.Memory? && (o.encryption.Some? ==> IsEncryption(o.encryption.value))
    ensures var (blank, world) := FreshMemory(w);
            var back := Read(world, blank, QueryPairs(o));
            && (back.Success? && back.value.sync == o.sync <==> (o.sync.Some? ==> IsPrintable(o.sync.value)))
            && (back.Success? ==>
                  && back.value.target == Memory(MemoryName(w.targets + 2)) && back.value.memoryState == w.states + 2
                  && back.value.openMode == ReadWrite && back.value.cacheMode == o.cacheMode
                  && back.value.immutable == o.immutable && back.value.vfs == o.vfs
                  && back.value.encryption == o.encryption && back.value.features == o.features)
  {
    var (blank, world) := FreshMemory(w);
    var like := o.(target := File(""), openMode := ReadWrite);
    PairsAfterMode(o, like);
    var (again, world') := InMemory(world, blank, true);
    var r := Start(world, blank);
    var renewed := r.(options := again, world := world');
    assert ReadPair(r, "mode", "memory") == Success(renewed);
    assert ReadPair(renewed, "mode", "rw") == Success(renewed);
    PairsAfterMode(like, o);
    assert ReadPairs(r, QueryPairs(o)) == ReadPairs(renewed, QueryPairs(like));
    AllPairsRead(renewed, like);
    if o.sync.None? || Milliseconds(o.sync.value) < U64_LIMIT {
      Finished(ReadPairs(r, QueryPairs(o)).value, o.encryption);
      if o.sync.Some? {
        RoundingIsExact(o.sync.value);
      }
    }
  }

  /* Pragmas. */

  function Names(pragmas: seq<Pragma>): seq<string> {
    seq(|pragmas|, i requires 0 <= i < |pragmas| => pragmas[i].0)
  }

  function PragmaValue(o: ConnectOptions, key: string): Option<string> {
    var i := FindPragma(o.pragmas, key);
    if i < |o.pragmas| then o.pragmas[i].1 else None
  }

  predicate GetMvcc(o: ConnectOptions) {
    var value := PragmaValue(o, "journal_mode");
    value.Some? && IsMvcc(value.value)
  }

  lemma {:induction false} FindIsFirst(pragmas: seq<Pragma>, key: string, i: nat)
    requires i <= |pragmas| && (i < |pragmas| ==> pragmas[i].0 == key)
    requires forall k :: 0 <= k < i ==> pragmas[k].0 != key
    ensures FindPragma(pragmas, key) == i
  {
    if i > 0 {
      FindIsFirst(pragmas[1..], key, i - 1);
    }
  }

  /** Setting a pragma changes its value and no other's, and keeps the order; a new name goes last. */
  lemma PragmaKeepsOrder(o: ConnectOptions, key: string, value: Option<string>, other: string)
    ensures var after := WithPragma(o, key, value);
            && PragmaValue(after, other) == (if other == key then value else PragmaValue(o, other))
            && Names(after.pragmas) == (if key in Names(o.pragmas) then Names(o.pragmas) else Names(o.pragmas) + [key])
  {
    var after := WithPragma(o, key, value);
    var at, was := FindPragma(o.pragmas, key), FindPragma(o.pragmas, other);
    assert key in Names(o.pragmas) <==> at < |o.pragmas| by {
      assert at < |o.pragmas| ==> Names(o.pragmas)[at] == key;
    }
    if other == key {
      FindIsFirst(after.pragmas, key, at);
    } else {
      FindIsFirst(after.pragmas, other, if was < |o.pragmas| then was else |after.pragmas|);
    }
  }

  lemma MvccReads(o: ConnectOptions, enabled: bool)
    ensures GetMvcc(WithMvcc(o, enabled)) == enabled
  {
    PragmaKeepsOrder(o, "journal_mode", if enabled then Some("'mvcc'") else None, "journal_mode");
    var v := "'mvcc'";
    assert v[1..][..4] == "mvcc" && TrimQuotes(v[1..][..4]) == "mvcc";
    assert TrimQuotes(v[1..]) == "mvcc";
  }
}
