/** What a whole list of query pairs means: which lists are accepted, and which pair decides each field. */
module OptionLaws {
  import opened Prelude
  import opened Decimal
  import opened Options

  /* Which lists are accepted. */

  predicate IsBool(value: string) { value == "true" || value == "false" || value == "1" || value == "0" }

  predicate IsSyncKey(key: string) {
    || key == "sync_remote_url" || key == "sync_auth_token" || key == "sync_client_name"
    || key == "sync_long_poll_timeout_ms" || key == "sync_bootstrap_if_empty"
  }

  predicate IsFeatureName(name: string) {
    || name == "attach" || name == "custom_types" || name == "generated_columns" || name == "index_method"
    || name == "views" || name == "materialized_views" || name == "multiprocess_wal" || name == "vacuum"
    || name == "without_rowid"
  }

  ghost predicate IsFeatureList(value: string) {
    forall name :: name in SplitCommas(value) ==> name == "" || IsFeatureName(name)
  }

  /** A pair that is read without an error, whatever was read before. */
  ghost predicate Acceptable(key: string, value: string) {
    || (key == "mode" && (value == "ro" || value == "rw" || value == "rwc" || value == "memory"))
    || (key == "cache" && (value == "private" || value == "shared"))
    || ((key == "immutable" || key == "sync_bootstrap_if_empty") && IsBool(value))
    || key == "vfs" || key == "encryption_cipher" || key == "encryption_hexkey" || key == "journal_mode"
    || (key == "experimental" && IsFeatureList(value))
    || key == "sync_remote_url" || key == "sync_auth_token" || key == "sync_client_name"
    || (key == "sync_long_poll_timeout_ms" && ParseU64(value).Some?)
  }

  /** The spelling of each feature; materialized views have two. */
  lemma FeatureSpellings(name: string, f: Feature)
    ensures ParseFeature(name) == Some(f) <==>
            name == match f {
              case Attach => "attach"
              case CustomTypes => "custom_types"
              case GeneratedColumns => "generated_columns"
              case IndexMethod => "index_method"
              case MaterializedViews => if name == "views" then "views" else "materialized_views"
              case MultiprocessWal => "multiprocess_wal"
              case Vacuum => "vacuum"
              case WithoutRowid => "without_rowid"
            }
    ensures ParseFeature(name).Some? <==> IsFeatureName(name)
  {}

  lemma {:induction false} FeaturesAdded(o: ConnectOptions, names: seq<string>)
    ensures var added := AddFeatures(o, names);
            && (added.Success? <==> forall name :: name in names ==> name == "" || IsFeatureName(name))
            && (added.Success? ==>
                  && added.value == o.(features := added.value.features)
                  && forall f :: f in added.value.features <==>
                       f in o.features || exists name :: name in names && ParseFeature(name) == Some(f))
            && (added.Failure? ==> added.error.UnknownFeature? && added.error.name in names &&
                                   added.error.name != "" && !IsFeatureName(added.error.name))
    decreases |names|
  {
    if names != [] {
      FeatureSpellings(names[0], Attach);
      var next := if ParseFeature(names[0]).Some? then WithFeature(o, ParseFeature(names[0]).value) else o;
      FeaturesAdded(next, names[1..]);
      assert names == [names[0]] + names[1..];
      assert ParseFeature("") == None;
    } else {
      assert o.(features := o.features) == o;
    }
  }

  /** Which error a pair that is not acceptable gives. */
  ghost predicate IsErrorOf(key: string, value: string, error: OptionsError) {
    if key == "mode" || key == "cache" || key == "immutable" || key == "sync_bootstrap_if_empty" then
      error == UnknownValue(key, value)
    else if key == "auto_vacuum" then error == UnsupportedAutovacuum
    else if key == "experimental" then
      error.UnknownFeature? && error.name in SplitCommas(value) && error.name != "" && !IsFeatureName(error.name)
    else if key == "sync_long_poll_timeout_ms" then error == InvalidNumber(value)
    else error == UnknownParameter(key)
  }

  lemma PairIsAcceptable(r: Reading, key: string, value: string)
    ensures ReadPair(r, key, value).Success? <==> Acceptable(key, value)
    ensures ReadPair(r, key, value).Failure? ==> IsErrorOf(key, value, ReadPair(r, key, value).error)
  {
    if key == "experimental" {
      FeaturesAdded(r.options, SplitCommas(value));
    }
  }

  ghost predicate AllAcceptable(pairs: seq<Pair>) {
    forall i :: 0 <= i < |pairs| ==> Acceptable(pairs[i].0, pairs[i].1)
  }

  lemma {:induction false} PairsAreAcceptable(r: Reading, pairs: seq<Pair>)
    ensures ReadPairs(r, pairs).Success? <==> AllAcceptable(pairs)
    decreases |pairs|
  {
    if pairs != [] {
      PairIsAcceptable(r, pairs[0].0, pairs[0].1);
      if ReadPair(r, pairs[0].0, pairs[0].1).Success? {
        PairsAreAcceptable(ReadPair(r, pairs[0].0, pairs[0].1).value, pairs[1..]);
        assert pairs == [pairs[0]] + pairs[1..];
      }
    }
  }

  /** The first pair that is not acceptable ends the reading with its error. */
  lemma {:induction false} FirstBadPairIsReported(r: Reading, pairs: seq<Pair>, bad: nat)
    requires bad < |pairs| && AllAcceptable(pairs[..bad]) && !Acceptable(pairs[bad].0, pairs[bad].1)
    ensures ReadPairs(r, pairs).Failure? && IsErrorOf(pairs[bad].0, pairs[bad].1, ReadPairs(r, pairs).error)
    decreases |pairs|
  {
    PairIsAcceptable(r, pairs[0].0, pairs[0].1);
    if bad > 0 {
      assert pairs[..bad][0] == pairs[0];
      forall i | 0 <= i < bad - 1 ensures Acceptable(pairs[1..][i].0, pairs[1..][i].1) {
        assert pairs[..bad][i + 1] == pairs[1..][i];
      }
      assert AllAcceptable(pairs[1..][..bad - 1]);
      FirstBadPairIsReported(ReadPair(r, pairs[0].0, pairs[0].1).value, pairs[1..], bad - 1);
    }
  }

  /* Which pair decides a field. */

  /** The last pair that `decides`. */
  function Last(pairs: seq<Pair>, decides: Pair -> bool): (last: Option<Pair>)
    ensures last.Some? ==> last.value in pairs && decides(last.value)
    ensures last.None? ==> forall i :: 0 <= i < |pairs| ==> !decides(pairs[i])
  {
    if pairs == [] then None
    else if decides(pairs[|pairs| - 1]) then Some(pairs[|pairs| - 1])
    else Last(pairs[..|pairs| - 1], decides)
  }

  /** The value of the last pair with this key. */
  function LastValue(pairs: seq<Pair>, key: string): Option<string> {
    var last := Last(pairs, (p: Pair) => p.0 == key);
    if last.Some? then Some(last.value.1) else None
  }

  function Or<T>(a: Option<T>, b: Option<T>): Option<T> { if a.Some? then a else b }

  /** How many pairs ask for an in-memory database. */
  function MemoryCount(pairs: seq<Pair>): nat {
    if pairs == [] then 0
    else MemoryCount(pairs[..|pairs| - 1]) + if pairs[|pairs| - 1] == ("mode", "memory") then 1 else 0
  }

  /** A mode decides the access unless it is `rw` or `memory`. */
  predicate DecidesAccess(p: Pair) { p.0 == "mode" && (p.1 == "ro" || p.1 == "rwc") }

  predicate DecidesCache(p: Pair) { p.0 == "cache" || p == ("mode", "memory") }

  ghost predicate PlainFields(r: Reading, pairs: seq<Pair>, after: Reading) {
    var (access, cache) := (Last(pairs, DecidesAccess), Last(pairs, DecidesCache));
    var (immutable, vfs) := (LastValue(pairs, "immutable"), LastValue(pairs, "vfs"));
    && after.options.openMode ==
       (if access.None? then r.options.openMode else if access.value.1 == "ro" then ReadOnly else CreateIfMissing)
    && after.options.cacheMode ==
       (if cache.None? then r.options.cacheMode else if cache.value.1 == "private" then Private else Shared)
    && after.options.immutable ==
       (if immutable.None? then r.options.immutable else immutable.value == "true" || immutable.value == "1")
    && after.options.vfs == Or(vfs, r.options.vfs)
    && after.options.customIo == (if vfs.Some? then None else r.options.customIo)
    && after.cipher == Or(LastValue(pairs, "encryption_cipher"), r.cipher)
    && after.hexkey == Or(LastValue(pairs, "encryption_hexkey"), r.hexkey)
    && after.options.encryption == r.options.encryption
    && after.options.sync == r.options.sync
  }

  /** Every pair that asks for memory makes a new database; the last of them is the one used. */
  ghost predicate MemoryFields(r: Reading, pairs: seq<Pair>, after: Reading) {
    var n := MemoryCount(pairs);
    && after.world == World(r.world.targets + n, r.world.states + n)
    && after.options.target == (if n == 0 then r.options.target else Memory(MemoryName(r.world.targets + n - 1)))
    && after.options.memoryState == (if n == 0 then r.options.memoryState else r.world.states + n - 1)
  }

  ghost predicate FeatureFields(r: Reading, pairs: seq<Pair>, after: Reading) {
    forall f :: f in after.options.features <==> f in r.options.features || Requests(pairs, f)
  }

  ghost predicate Requests(pairs: seq<Pair>, f: Feature) {
    exists i :: 0 <= i < |pairs| && RequestsFeature(pairs[i], f)
  }

  ghost predicate RequestsFeature(p: Pair, f: Feature) {
    p.0 == "experimental" && exists name :: name in SplitCommas(p.1) && ParseFeature(name) == Some(f)
  }

  /** The last journal mode is set; its mvcc spellings are all written the same way. */
  ghost predicate PragmaFields(r: Reading, pairs: seq<Pair>, after: Reading) {
    var journal := LastValue(pairs, "journal_mode");
    && PragmaValue(after.options, "journal_mode") ==
       (if journal.None? then PragmaValue(r.options, "journal_mode")
        else JournalMode(journal.value))
    && (forall other :: other != "journal_mode" ==>
          PragmaValue(after.options, other) == PragmaValue(r.options, other))
    && Names(after.options.pragmas) ==
       if journal.None? || "journal_mode" in Names(r.options.pragmas) then Names(r.options.pragmas)
       else Names(r.options.pragmas) + ["journal_mode"]
  }

  /** A remote URL starts the sync settings over. */
  predicate DecidesSync(key: string, p: Pair) { p.0 == key || p.0 == "sync_remote_url" }

  ghost predicate SyncFields(r: Reading, pairs: seq<Pair>, after: Reading) {
    var was := SyncSoFar(r);
    var remote := LastValue(pairs, "sync_remote_url");
    var token := Last(pairs, p => DecidesSync("sync_auth_token", p));
    var client := Last(pairs, p => DecidesSync("sync_client_name", p));
    var timeout := Last(pairs, p => DecidesSync("sync_long_poll_timeout_ms", p));
    var bootstrap := Last(pairs, p => DecidesSync("sync_bootstrap_if_empty", p));
    && (after.sync.Some? <==> r.sync.Some? || Last(pairs, (p: Pair) => IsSyncKey(p.0)).Some?)
    && (after.sync.Some? ==>
          && after.sync.value.remoteUrl == (if remote.Some? then remote.value else was.remoteUrl)
          && after.sync.value.authToken == Setting(token, was.authToken)
          && after.sync.value.clientName == Setting(client, was.clientName)
          && after.sync.value.longPollTimeout ==
             (if timeout.None? then was.longPollTimeout
              else if timeout.value.0 == "sync_remote_url" then None
              else if ParseU64(timeout.value.1).None? then None
              else Some(ParseU64(timeout.value.1).value * 1_000_000))
          && after.sync.value.bootstrapIfEmpty ==
             (if bootstrap.None? then was.bootstrapIfEmpty
              else bootstrap.value.0 == "sync_remote_url" || bootstrap.value.1 == "true" || bootstrap.value.1 == "1"))
  }

  function Setting(last: Option<Pair>, was: Option<string>): Option<string> {
    if last.None? then was else if last.value.0 == "sync_remote_url" then None else Some(last.value.1)
  }

  /** What reading the pairs from r on gives. */
  ghost predicate Means(r: Reading, pairs: seq<Pair>, after: Reading) {
    && PlainFields(r, pairs, after) && MemoryFields(r, pairs, after) && FeatureFields(r, pairs, after)
    && PragmaFields(r, pairs, after) && SyncFields(r, pairs, after)
  }

  /* What one pair changes, field by field. */

  ghost predicate PlainChange(r: Reading, p: Pair, after: Reading) {
    && after.options.openMode ==
       (if !DecidesAccess(p) then r.options.openMode else if p.1 == "ro" then ReadOnly else CreateIfMissing)
    && after.options.cacheMode ==
       (if !DecidesCache(p) then r.options.cacheMode else if p.1 == "private" then Private else Shared)
    && after.options.immutable ==
       (if p.0 != "immutable" then r.options.immutable else p.1 == "true" || p.1 == "1")
    && after.options.vfs == (if p.0 == "vfs" then Some(p.1) else r.options.vfs)
    && after.options.customIo == (if p.0 == "vfs" then None else r.options.customIo)
    && after.cipher == (if p.0 == "encryption_cipher" then Some(p.1) else r.cipher)
    && after.hexkey == (if p.0 == "encryption_hexkey" then Some(p.1) else r.hexkey)
    && after.options.encryption == r.options.encryption
    && after.options.sync == r.options.sync
  }

  ghost predicate MemoryChange(r: Reading, p: Pair, after: Reading) {
    if p == ("mode", "memory") then
      && after.world == World(r.world.targets + 1, r.world.states + 1)
      && after.options.target == Memory(MemoryName(r.world.targets)) && after.options.memoryState == r.world.states
    else
      && after.world == r.world
      && after.options.target == r.options.target && after.options.memoryState == r.options.memoryState
  }

  ghost predicate FeatureChange(r: Reading, p: Pair, after: Reading) {
    forall f :: f in after.options.features <==> f in r.options.features || RequestsFeature(p, f)
  }

  function JournalMode(value: string): Option<string> {
    Some(if IsMvcc(value) then "'mvcc'" else value)
  }

  ghost predicate PragmaChange(r: Reading, p: Pair, after: Reading) {
    if p.0 == "journal_mode" then
      && PragmaValue(after.options, "journal_mode") == JournalMode(p.1)
      && (forall other :: other != "journal_mode" ==>
            PragmaValue(after.options, other) == PragmaValue(r.options, other))
      && Names(after.options.pragmas) ==
         if "journal_mode" in Names(r.options.pragmas) then Names(r.options.pragmas)
         else Names(r.options.pragmas) + ["journal_mode"]
    else after.options.pragmas == r.options.pragmas
  }

  ghost predicate SyncChange(r: Reading, p: Pair, after: Reading) {
    var was := SyncSoFar(r);
    if p.0 == "sync_remote_url" then after.sync == Some(Sync(p.1, None, None, None, true))
    else if p.0 == "sync_auth_token" then after.sync == Some(was.(authToken := Some(p.1)))
    else if p.0 == "sync_client_name" then after.sync == Some(was.(clientName := Some(p.1)))
    else if p.0 == "sync_long_poll_timeout_ms" then
      ParseU64(p.1).Some? && after.sync == Some(was.(longPollTimeout := Some(ParseU64(p.1).value * 1_000_000)))
    else if p.0 == "sync_bootstrap_if_empty" then
      after.sync == Some(was.(bootstrapIfEmpty := p.1 == "true" || p.1 == "1"))
    else after.sync == r.sync
  }

  ghost predicate Change(r: Reading, p: Pair, after: Reading) {
    && PlainChange(r, p, after) && MemoryChange(r, p, after) && FeatureChange(r, p, after)
    && PragmaChange(r, p, after) && SyncChange(r, p, after)
  }

  /** What each accepted pair changes, and that it changes nothing else. */
  lemma PairChanges(r: Reading, p: Pair)
    requires ReadPair(r, p.0, p.1).Success?
    ensures Change(r, p, ReadPair(r, p.0, p.1).value)
  {
    if p.0 == "mode" || p.0 == "cache" {
      ModePairChanges(r, p);
    } else if p.0 == "experimental" {
      FeaturePairChanges(r, p);
    } else if p.0 == "journal_mode" {
      JournalChanges(r, p.1);
    } else if IsSyncKey(p.0) {
      SyncPairChanges(r, p);
    } else {
      PairIsAcceptable(r, p.0, p.1);
      ValuePairChanges(r, p);
    }
  }

  lemma ModePairChanges(r: Reading, p: Pair)
    requires (p.0 == "mode" || p.0 == "cache") && ReadPair(r, p.0, p.1).Success?
    ensures Change(r, p, ReadPair(r, p.0, p.1).value)
  {}

  lemma FeaturePairChanges(r: Reading, p: Pair)
    requires p.0 == "experimental" && ReadPair(r, p.0, p.1).Success?
    ensures Change(r, p, ReadPair(r, p.0, p.1).value)
  {
    FeaturesAdded(r.options, SplitCommas(p.1));
  }

  lemma ValuePairChanges(r: Reading, p: Pair)
    requires p.0 == "immutable" || p.0 == "vfs" || p.0 == "encryption_cipher" || p.0 == "encryption_hexkey"
    requires ReadPair(r, p.0, p.1).Success?
    ensures Change(r, p, ReadPair(r, p.0, p.1).value)
  {}

  lemma SyncPairChanges(r: Reading, p: Pair)
    requires IsSyncKey(p.0) && ReadPair(r, p.0, p.1).Success?
    ensures Change(r, p, ReadPair(r, p.0, p.1).value)
  {
    assert ReadPair(r, p.0, p.1) == ReadSyncPair(r, p.0, p.1);
  }

  lemma JournalChanges(r: Reading, value: string)
    ensures Change(r, ("journal_mode", value), ReadPair(r, "journal_mode", value).value)
  {
    var o := r.options;
    assert ReadPair(r, "journal_mode", value).value ==
           r.(options := WithPragma(o, "journal_mode", JournalMode(value)));
    PragmaKeepsOrder(o, "journal_mode", JournalMode(value), "journal_mode");
    forall other | other != "journal_mode"
      ensures PragmaValue(WithPragma(o, "journal_mode", JournalMode(value)), other) == PragmaValue(o, other)
    {
      PragmaKeepsOrder(o, "journal_mode", JournalMode(value), other);
    }
  }

  /* Adding a pair at the end of a list. */

  lemma LastOfMore(pairs: seq<Pair>, p: Pair, decides: Pair -> bool)
    ensures Last(pairs + [p], decides) == if decides(p) then Some(p) else Last(pairs, decides)
  {
    assert (pairs + [p])[..|pairs|] == pairs;
  }

  lemma LastValueOfMore(pairs: seq<Pair>, p: Pair, key: string)
    ensures LastValue(pairs + [p], key) == if p.0 == key then Some(p.1) else LastValue(pairs, key)
  {
    LastOfMore(pairs, p, (p: Pair) => p.0 == key);
  }

  lemma PlainStep(r: Reading, pairs: seq<Pair>, mid: Reading, p: Pair, after: Reading)
    requires PlainFields(r, pairs, mid) && PlainChange(mid, p, after)
    ensures PlainFields(r, pairs + [p], after)
  {
    LastOfMore(pairs, p, DecidesAccess);
    LastOfMore(pairs, p, DecidesCache);
    LastValueOfMore(pairs, p, "immutable");
    LastValueOfMore(pairs, p, "vfs");
    LastValueOfMore(pairs, p, "encryption_cipher");
    LastValueOfMore(pairs, p, "encryption_hexkey");
  }

  lemma MemoryStep(r: Reading, pairs: seq<Pair>, mid: Reading, p: Pair, after: Reading)
    requires MemoryFields(r, pairs, mid) && MemoryChange(mid, p, after)
    ensures MemoryFields(r, pairs + [p], after)
  {
    assert (pairs + [p])[..|pairs|] == pairs;
  }

  lemma FeatureStep(r: Reading, pairs: seq<Pair>, mid: Reading, p: Pair, after: Reading)
    requires FeatureFields(r, pairs, mid) && FeatureChange(mid, p, after)
    ensures FeatureFields(r, pairs + [p], after)
  {
    forall f ensures Requests(pairs + [p], f) <==> Requests(pairs, f) || RequestsFeature(p, f) {
      var all := pairs + [p];
      assert all[|pairs|] == p && forall i :: 0 <= i < |pairs| ==> all[i] == pairs[i];
    }
  }

  lemma PragmaStep(r: Reading, pairs: seq<Pair>, mid: Reading, p: Pair, after: Reading)
    requires PragmaFields(r, pairs, mid) && PragmaChange(mid, p, after)
    ensures PragmaFields(r, pairs + [p], after)
  {
    LastValueOfMore(pairs, p, "journal_mode");
  }

  lemma SyncStep(r: Reading, pairs: seq<Pair>, mid: Reading, p: Pair, after: Reading)
    requires SyncFields(r, pairs, mid) && SyncChange(mid, p, after)
    ensures SyncFields(r, pairs + [p], after)
  {
    LastValueOfMore(pairs, p, "sync_remote_url");
    LastOfMore(pairs, p, p => DecidesSync("sync_auth_token", p));
    LastOfMore(pairs, p, p => DecidesSync("sync_client_name", p));
    LastOfMore(pairs, p, p => DecidesSync("sync_long_poll_timeout_ms", p));
    LastOfMore(pairs, p, p => DecidesSync("sync_bootstrap_if_empty", p));
    LastOfMore(pairs, p, (p: Pair) => IsSyncKey(p.0));
  }

  /** Each field of what is read is decided by the last pair that speaks of it. */
  lemma {:induction false} PairsMean(r: Reading, pairs: seq<Pair>)
    requires ReadPairs(r, pairs).Success?
    ensures Means(r, pairs, ReadPairs(r, pairs).value)
    decreases |pairs|
  {
    if pairs != [] {
      var init, p := pairs[..|pairs| - 1], pairs[|pairs| - 1];
      assert pairs == init + [p];
      ReadPairsConcat(r, init, [p]);
      var mid := ReadPairs(r, init).value;
      ReadOne(mid, p.0, p.1);
      var after := ReadPair(mid, p.0, p.1).value;
      PairsMean(r, init);
      PairChanges(mid, p);
      PlainStep(r, init, mid, p, after);
      MemoryStep(r, init, mid, p, after);
      FeatureStep(r, init, mid, p, after);
      PragmaStep(r, init, mid, p, after);
      SyncStep(r, init, mid, p, after);
    }
  }

  /* A whole reading. */

  /** The cipher, the key and the sync settings that a reading of o has seen at its end. */
  function CipherOf(o: ConnectOptions, pairs: seq<Pair>): Option<string> {
    Or(LastValue(pairs, "encryption_cipher"), if o.encryption.Some? then Some(o.encryption.value.cipher) else None)
  }

  function HexkeyOf(o: ConnectOptions, pairs: seq<Pair>): Option<string> {
    Or(LastValue(pairs, "encryption_hexkey"), if o.encryption.Some? then Some(o.encryption.value.hexkey) else None)
  }

  predicate HasSync(o: ConnectOptions, pairs: seq<Pair>) {
    o.sync.Some? || Last(pairs, (p: Pair) => IsSyncKey(p.0)).Some?
  }

  function RemoteOf(o: ConnectOptions, pairs: seq<Pair>): string {
    var remote := LastValue(pairs, "sync_remote_url");
    if remote.Some? then remote.value else if o.sync.Some? then o.sync.value.remoteUrl else ""
  }

  /** An even number of hexadecimal digits, and a cipher. */
  ghost predicate IsKey(cipher: string, hexkey: string) {
    && cipher != "" && hexkey != "" && |hexkey| % 2 == 0
    && forall i :: 0 <= i < |hexkey| ==>
         '0' <= hexkey[i] <= '9' || 'a' <= hexkey[i] <= 'f' || 'A' <= hexkey[i] <= 'F'
  }

  /** Exactly when a reading succeeds, what it gives then, and which error it gives otherwise. */
  lemma ReadMeans(w: World, o: ConnectOptions, pairs: seq<Pair>)
    ensures var r := Read(w, o, pairs);
            var (cipher, hexkey) := (CipherOf(o, pairs), HexkeyOf(o, pairs));
            && (r.Success? <==>
                  && AllAcceptable(pairs)
                  && (cipher.Some? <==> hexkey.Some?) && (cipher.Some? ==> IsKey(cipher.value, hexkey.value))
                  && (HasSync(o, pairs) ==> RemoteOf(o, pairs) != ""))
            && (r.Success? ==>
                  exists seen: Reading ::
                    && Means(Start(w, o), pairs, seen) && (seen.sync.Some? <==> HasSync(o, pairs))
                    && r.value == seen.options.(sync := seen.sync, encryption :=
                                                if cipher.Some? then Some(Encryption(cipher.value, hexkey.value))
                                                else None))
            && (AllAcceptable(pairs) && r.Failure? ==>
                  r.error == if cipher.Some? != hexkey.Some? then IncompleteEncryption
                             else if cipher.Some? && !IsKey(cipher.value, hexkey.value) then InvalidEncryption
                             else MissingRemoteUrl)
  {
    PairsAreAcceptable(Start(w, o), pairs);
    if AllAcceptable(pairs) {
      PairsMean(Start(w, o), pairs);
      var seen := ReadPairs(Start(w, o), pairs).value;
      assert seen.cipher == CipherOf(o, pairs) && seen.hexkey == HexkeyOf(o, pairs);
      assert seen.sync.Some? ==> seen.sync.value.remoteUrl == RemoteOf(o, pairs);
      FinishMeans(seen);
    }
  }

  lemma FinishMeans(r: Reading)
    ensures var done := Finish(r);
            if r.cipher.Some? != r.hexkey.Some? then done == Failure(IncompleteEncryption)
            else if r.cipher.Some? && !IsKey(r.cipher.value, r.hexkey.value) then done == Failure(InvalidEncryption)
            else if r.sync.Some? && r.sync.value.remoteUrl == "" then done == Failure(MissingRemoteUrl)
            else done == Success(r.options.(
              sync := Or(r.sync, r.options.sync),
              encryption := if r.cipher.Some? then Some(Encryption(r.cipher.value, r.hexkey.value))
                            else r.options.encryption))
  {
    if r.cipher.Some? && r.hexkey.Some? {
      assert IsEncryption(Encryption(r.cipher.value, r.hexkey.value)) <==> IsKey(r.cipher.value, r.hexkey.value);
    }
    assert r.options.(sync := r.options.sync, encryption := r.options.encryption) == r.options;
  }

  /* How values are spelt. */

  ghost predicate AreQuotes(s: string) {
    forall i :: 0 <= i < |s| ==> s[i] == '\'' || s[i] == '"'
  }

  ghost predicate IsMvccWord(word: string) {
    && |word| == 4 && (word[0] == 'm' || word[0] == 'M') && (word[1] == 'v' || word[1] == 'V')
    && (word[2] == 'c' || word[2] == 'C') && (word[3] == 'c' || word[3] == 'C')
  }

  /** The journal mode is mvcc in any case and between any quotes. */
  lemma {:induction false} MvccIsSpelt(left: string, word: string, right: string)
    requires AreQuotes(left) && AreQuotes(right) && IsMvccWord(word)
    ensures IsMvcc(left + word + right)
    decreases |left| + |right|
  {
    var all := left + word + right;
    if left != "" {
      assert all[1..] == left[1..] + word + right;
      MvccIsSpelt(left[1..], word, right);
    } else if right != "" {
      assert all[..|all| - 1] == left + word + right[..|right| - 1];
      MvccIsSpelt(left, word, right[..|right| - 1]);
    } else {
      assert all == word;
    }
  }

  lemma {:induction false} TrimmedIsInside(s: string) returns (left: string, right: string)
    ensures s == left + TrimQuotes(s) + right && AreQuotes(left) && AreQuotes(right)
    decreases |s|
  {
    left, right := "", "";
    if s != "" && (s[0] == '\'' || s[0] == '"') {
      left, right := TrimmedIsInside(s[1..]);
      left := [s[0]] + left;
    } else if s != "" && (s[|s| - 1] == '\'' || s[|s| - 1] == '"') {
      left, right := TrimmedIsInside(s[..|s| - 1]);
      right := right + [s[|s| - 1]];
    }
  }

  /** Nothing else is. */
  lemma MvccIsOnlySpeltSo(value: string)
    requires IsMvcc(value)
    ensures exists left, word, right ::
              value == left + word + right && AreQuotes(left) && AreQuotes(right) && IsMvccWord(word)
  {
    var left, right := TrimmedIsInside(value);
    assert IsMvccWord(TrimQuotes(value));
  }

  /** Every value is the list of the names it splits into, none of which holds a comma. */
  lemma {:induction false} JoinUndoesSplit(s: string)
    ensures SplitCommas(s) != [] && JoinCommas(SplitCommas(s)) == s
    ensures forall name :: name in SplitCommas(s) ==> ',' !in name
    decreases |s|
  {
    HeadIsBeforeComma(s);
    var head := UpToComma(s);
    if |head| < |s| {
      var rest := SplitCommas(s[|head| + 1..]);
      JoinUndoesSplit(s[|head| + 1..]);
      assert ([head] + rest)[1..] == rest;
      assert s == head + "," + s[|head| + 1..];
    }
  }

  lemma {:induction false} HeadIsBeforeComma(s: string)
    ensures var head := UpToComma(s);
            ',' !in head && s[..|head|] == head && (|head| < |s| ==> s[|head|] == ',')
  {
    if s != "" && s[0] != ',' {
      HeadIsBeforeComma(s[1..]);
    }
  }

  predicate AreDigits(s: string) {
    s != "" && forall i :: 0 <= i < |s| ==> '0' <= s[i] <= '9'
  }

  /** A timeout is a numeral below 2^64, with or without a plus sign. */
  lemma TimeoutSpellings(digits: string)
    requires AreDigits(digits)
    ensures var n := if Value(digits) < U64_LIMIT then Some(Value(digits)) else None;
            ParseU64(digits) == n && ParseU64("+" + digits) == n
  {
    assert forall i :: 0 <= i < |digits| ==> IsDigit(digits[i]);
    assert digits[0] != '+' && ("+" + digits)[0] == '+' && ("+" + digits)[1..] == digits;
  }

  lemma OtherTimeouts(s: string)
    requires !AreDigits(s) && !(s != "" && s[0] == '+' && AreDigits(s[1..]))
    ensures ParseU64(s) == None
  {
    var digits := if s != "" && s[0] == '+' then s[1..] else s;
    if digits != "" {
      assert !AreDigits(digits);
      var i :| 0 <= i < |digits| && !('0' <= digits[i] <= '9');
      assert !IsDigit(digits[i]);
    }
  }
}
