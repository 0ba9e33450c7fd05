/** The identity of in-memory databases: the names and shared states of options.rs, and the
    lock-guarded slot that driver.rs fills once for each state. */
module MemoryDatabases {
  import opened Prelude
  import opened Decimal
  import opened Options
  import opened OptionLaws

  /* Options in a program: builders consume a handle and give one back, clones and parsed URLs add one. */

  /** `SetOther` is any builder that leaves the target and the memory state alone. In `Parse`, `decoded` is
      the percent-decoded database, if it is UTF-8. */
  datatype HandleOp =
    | New
    | Clone(handle: nat)
    | SetInMemory(handle: nat, inMemory: bool)
    | SetFilename(handle: nat, path: string)
    | SetOther(handle: nat, values: ConnectOptions)
    | Parse(database: string, decoded: Option<string>, pairs: seq<Pair>)

  datatype Program = Program(world: World, handles: seq<ConnectOptions>)

  /** Names and states are made together, so the n-th state belongs to the n-th name. */
  predicate Paired(w: World, o: ConnectOptions) {
    && w.targets == w.states
    && o.memoryState < w.states
    && (o.target.Memory? ==> o.target.name == MemoryName(o.memoryState))
  }

  predicate AllPaired(p: Program) {
    p.world.targets == p.world.states && forall i :: 0 <= i < |p.handles| ==> Paired(p.world, p.handles[i])
  }

  /** The options that a database text stands for, before its parameters are read. */
  function ParseDatabase(w: World, database: string, decoded: Option<string>): (Option<ConnectOptions>, World) {
    var (o, world) := Default(w);
    if database == "" then (Some(WithFilename(o, "")), world)
    else if database == ":memory:" then
      var (memory, world') := InMemory(world, o, true);
      (Some(memory), world')
    else (if decoded.Some? then Some(WithFilename(o, decoded.value)) else None, world)
  }

  /** The world that a reading leaves behind, even one that fails: targets are made pair by pair. */
  function ReadWorld(r: Reading, pairs: seq<Pair>): World
    decreases |pairs|
  {
    if pairs == [] then r.world
    else
      var next := ReadPair(r, pairs[0].0, pairs[0].1);
      if next.Failure? then r.world else ReadWorld(next.value, pairs[1..])
  }

  /** A failed parse adds no handle. */
  function Act(p: Program, op: HandleOp): Program {
    match op
    case New =>
      var (o, world) := Default(p.world);
      Program(world, p.handles + [o])
    case Clone(h) => if h < |p.handles| then p.(handles := p.handles + [p.handles[h]]) else p
    case SetInMemory(h, inMemory) =>
      if h < |p.handles| then
        var (o, world) := InMemory(p.world, p.handles[h], inMemory);
        Program(world, p.handles[h := o])
      else p
    case SetFilename(h, path) =>
      if h < |p.handles| then p.(handles := p.handles[h := WithFilename(p.handles[h], path)]) else p
    case SetOther(h, values) =>
      if h < |p.handles| then
        var kept := p.handles[h];
        p.(handles := p.handles[h := values.(target := kept.target, memoryState := kept.memoryState)])
      else p
    case Parse(database, decoded, pairs) =>
      var (o, world) := ParseDatabase(p.world, database, decoded);
      if o.None? then p.(world := world)
      else
        var parsed := Read(world, o.value, pairs);
        Program(ReadWorld(Start(world, o.value), pairs), p.handles + if parsed.Success? then [parsed.value] else [])
  }

  function RunAll(p: Program, ops: seq<HandleOp>): Program
    decreases |ops|
  {
    if ops == [] then p else RunAll(Act(p, ops[0]), ops[1..])
  }

  lemma {:induction false} FeaturesKeepIdentity(o: ConnectOptions, names: seq<string>)
    requires AddFeatures(o, names).Success?
    ensures AddFeatures(o, names).value.target == o.target && AddFeatures(o, names).value.memoryState == o.memoryState
    decreases |names|
  {
    if names != [] {
      FeaturesKeepIdentity(if names[0] == "" then o else WithFeature(o, ParseFeature(names[0]).value), names[1..]);
    }
  }

  lemma PairKeepsIdentity(r: Reading, key: string, value: string)
    requires Paired(r.world, r.options) && ReadPair(r, key, value).Success?
    ensures var after := ReadPair(r, key, value).value;
            Paired(after.world, after.options) && r.world.states <= after.world.states
  {
    if key == "experimental" {
      FeaturesKeepIdentity(r.options, SplitCommas(value));
    }
  }

  lemma {:induction false} PairsKeepIdentity(r: Reading, pairs: seq<Pair>)
    requires Paired(r.world, r.options)
    ensures var (after, world) := (ReadPairs(r, pairs), ReadWorld(r, pairs));
            && world.targets == world.states >= r.world.states
            && (after.Success? ==> after.value.world == world && Paired(world, after.value.options))
    decreases |pairs|
  {
    if pairs != [] && ReadPair(r, pairs[0].0, pairs[0].1).Success? {
      PairKeepsIdentity(r, pairs[0].0, pairs[0].1);
      PairsKeepIdentity(ReadPair(r, pairs[0].0, pairs[0].1).value, pairs[1..]);
    }
  }

  /** A reading that fails has made a database for every pair before the failing one that asked for memory. */
  lemma FailedReadingKeepsCounting(r: Reading, pairs: seq<Pair>, bad: nat)
    requires bad < |pairs| && AllAcceptable(pairs[..bad]) && !Acceptable(pairs[bad].0, pairs[bad].1)
    ensures ReadWorld(r, pairs) ==
            World(r.world.targets + MemoryCount(pairs[..bad]), r.world.states + MemoryCount(pairs[..bad]))
  {
    PairsAreAcceptable(r, pairs[..bad]);
    assert pairs == pairs[..bad] + pairs[bad..];
    ReadWorldConcat(r, pairs[..bad], pairs[bad..]);
    WorldCounts(r, pairs[..bad]);
    ReadWorldStops(ReadPairs(r, pairs[..bad]).value, pairs[bad..]);
  }

  lemma WorldCounts(r: Reading, pairs: seq<Pair>)
    requires ReadPairs(r, pairs).Success?
    ensures ReadPairs(r, pairs).value.world ==
            World(r.world.targets + MemoryCount(pairs), r.world.states + MemoryCount(pairs))
  {
    PairsMean(r, pairs);
  }

  lemma ReadWorldStops(r: Reading, pairs: seq<Pair>)
    requires pairs != [] && !Acceptable(pairs[0].0, pairs[0].1)
    ensures ReadWorld(r, pairs) == r.world
  {
    PairIsAcceptable(r, pairs[0].0, pairs[0].1);
  }

  lemma {:induction false} ReadWorldConcat(r: Reading, a: seq<Pair>, b: seq<Pair>)
    requires ReadPairs(r, a).Success?
    ensures ReadWorld(r, a + b) == ReadWorld(ReadPairs(r, a).value, b)
    decreases |a|
  {
    if a == [] {
      assert a + b == b;
    } else {
      assert (a + b)[1..] == a[1..] + b;
      ReadWorldConcat(ReadPair(r, a[0].0, a[0].1).value, a[1..], b);
    }
  }

  lemma ParseKeepsPairs(p: Program, op: HandleOp)
    requires AllPaired(p) && op.Parse?
    ensures AllPaired(Act(p, op)) && p.world.states <= Act(p, op).world.states
  {
    var (o, world) := ParseDatabase(p.world, op.database, op.decoded);
    if o.Some? {
      PairsKeepIdentity(Start(world, o.value), op.pairs);
      var read := ReadPairs(Start(world, o.value), op.pairs);
      if read.Success? && Finish(read.value).Success? {
        assert Paired(read.value.world, Finish(read.value).value);
      }
    }
  }

  lemma ActKeepsPairs(p: Program, op: HandleOp)
    requires AllPaired(p)
    ensures AllPaired(Act(p, op)) && p.world.states <= Act(p, op).world.states
  {
    if op.Parse? {
      ParseKeepsPairs(p, op);
    }
  }

  lemma {:induction false} RunKeepsPairs(p: Program, ops: seq<HandleOp>)
    requires AllPaired(p)
    ensures AllPaired(RunAll(p, ops))
    decreases |ops|
  {
    if ops != [] {
      ActKeepsPairs(p, ops[0]);
      RunKeepsPairs(Act(p, ops[0]), ops[1..]);
    }
  }

  lemma NamesTell(m: nat, n: nat)
    ensures MemoryName(m) == MemoryName(n) <==> m % U64_LIMIT == n % U64_LIMIT
  {
    var stem := "sqlx-turso-in-memory-";
    assert MemoryName(m)[|stem|..] == Print(m % U64_LIMIT);
    assert MemoryName(n)[|stem|..] == Print(n % U64_LIMIT);
  }

  function Reached(ops: seq<HandleOp>): Program {
    RunAll(Program(World(0, 0), []), ops)
  }

  /** Over every chain of clones, builders and parsed URLs, failed ones included: two in-memory options that share a
      state have one name, and two that have one name share a state as long as the 64-bit counter has
      not wrapped; after that, exactly states that lie a multiple of 2^64 apart have one name. */
  lemma NamesIdentifyStates(ops: seq<HandleOp>, i: nat, j: nat)
    requires i < |Reached(ops).handles| && Reached(ops).handles[i].target.Memory?
    requires j < |Reached(ops).handles| && Reached(ops).handles[j].target.Memory?
    ensures var (a, b) := (Reached(ops).handles[i], Reached(ops).handles[j]);
            && (a.target.name == b.target.name <==> a.memoryState % U64_LIMIT == b.memoryState % U64_LIMIT)
            && (Reached(ops).world.targets <= U64_LIMIT ==>
                  (a.target.name == b.target.name <==> a.memoryState == b.memoryState))
  {
    var p := Reached(ops);
    RunKeepsPairs(Program(World(0, 0), []), ops);
    assert AllPaired(p);
    var (a, b) := (p.handles[i], p.handles[j]);
    assert Paired(p.world, a) && Paired(p.world, b);
    NamesTell(a.memoryState, b.memoryState);
    SmallRemainders(a.memoryState, b.memoryState, p.world.targets);
  }

  lemma SmallRemainders(m: nat, n: nat, bound: nat)
    requires m < bound && n < bound
    ensures bound <= U64_LIMIT ==> (m % U64_LIMIT == n % U64_LIMIT <==> m == n)
  {}

  /* Connecting. Databases are numbered in the order in which they are built. */

  datatype Task = Waiting(cache: CacheMode) | Building | Connected(cache: CacheMode, database: nat) | Rejected

  /** The tasks that connect with options of one memory state, its slot and the lock on it. */
  datatype Slot = Slot(tasks: seq<Task>, holder: Option<nat>, database: Option<nat>, built: nat)

  /** A scheduler picks a task; a build, when the task is at one, succeeds or not. */
  datatype Turn = Turn(task: nat, succeeds: bool)

  function Take(s: Slot, turn: Turn): Slot {
    if turn.task >= |s.tasks| then s
    else
      match s.tasks[turn.task]
      case Waiting(Private) =>
        if turn.succeeds then s.(tasks := s.tasks[turn.task := Connected(Private, s.built)], built := s.built + 1)
        else s.(tasks := s.tasks[turn.task := Rejected])
      case Waiting(Shared) =>
        if s.holder.Some? then s
        else if s.database.Some? then s.(tasks := s.tasks[turn.task := Connected(Shared, s.database.value)])
        else s.(tasks := s.tasks[turn.task := Building], holder := Some(turn.task))
      case Building =>
        if turn.succeeds then
          Slot(s.tasks[turn.task := Connected(Shared, s.built)], None, Some(s.built), s.built + 1)
        else s.(tasks := s.tasks[turn.task := Rejected], holder := None)
      case _ => s
  }

  function Schedule(s: Slot, turns: seq<Turn>): Slot
    decreases |turns|
  {
    if turns == [] then s else Schedule(Take(s, turns[0]), turns[1..])
  }

  /** The lock is held exactly while its holder builds, and only for an empty slot; whoever is connected
      through the slot has its database, and nobody else does. */
  ghost predicate Guarded(s: Slot) {
    && (s.holder.Some? ==>
          s.holder.value < |s.tasks| && s.tasks[s.holder.value].Building? && s.database == None)
    && (s.database.Some? ==> s.database.value < s.built)
    && (forall i :: 0 <= i < |s.tasks| ==> Fits(s, i, s.tasks[i]))
    && (forall i, j :: 0 <= i < j < |s.tasks| ==> Apart(s.tasks[i], s.tasks[j]))
  }

  ghost predicate Fits(s: Slot, i: nat, task: Task) {
    match task
    case Building => s.holder == Some(i)
    case Connected(Shared, database) => s.database == Some(database)
    case Connected(Private, database) => s.database != Some(database) && database < s.built
    case _ => true
  }

  ghost predicate Apart(a: Task, b: Task) {
    a.Connected? && b.Connected? && (a.cache.Private? || b.cache.Private?) ==> a.database != b.database
  }

  lemma TakeKeepsGuard(s: Slot, turn: Turn)
    requires Guarded(s)
    ensures Guarded(Take(s, turn)) && |Take(s, turn).tasks| == |s.tasks|
    ensures s.database.Some? ==> Take(s, turn).database == s.database
  {
    var after := Take(s, turn);
    forall i | 0 <= i < |s.tasks| ensures Fits(after, i, after.tasks[i]) {
      assert Fits(s, i, s.tasks[i]);
    }
    forall i, j | 0 <= i < j < |s.tasks| ensures Apart(after.tasks[i], after.tasks[j]) {
      assert Apart(s.tasks[i], s.tasks[j]) && Fits(s, i, s.tasks[i]) && Fits(s, j, s.tasks[j]);
    }
  }

  lemma {:induction false} ScheduleKeepsGuard(s: Slot, turns: seq<Turn>)
    requires Guarded(s)
    ensures Guarded(Schedule(s, turns)) && |Schedule(s, turns).tasks| == |s.tasks|
    ensures s.database.Some? ==> Schedule(s, turns).database == s.database
    decreases |turns|
  {
    if turns != [] {
      TakeKeepsGuard(s, turns[0]);
      ScheduleKeepsGuard(Take(s, turns[0]), turns[1..]);
    }
  }

  /** A build that fails gives the lock back and leaves the slot empty and every other task as it was. */
  lemma FailedBuildReleases(s: Slot, i: nat)
    requires Guarded(s) && i < |s.tasks| && s.tasks[i].Building?
    ensures Take(s, Turn(i, false)) == s.(tasks := s.tasks[i := Rejected], holder := None)
  {
    assert Fits(s, i, s.tasks[i]);
  }

  /** No interleaving leaves a task stuck: from every state a waiting one can still connect, even if the
      build that it waits for fails. */
  lemma WaitingConnects(s: Slot, i: nat) returns (turns: seq<Turn>)
    requires Guarded(s) && i < |s.tasks| && s.tasks[i].Waiting?
    ensures |Schedule(s, turns).tasks| == |s.tasks| && Schedule(s, turns).tasks[i].Connected? && |turns| <= 3
    ensures forall k :: 0 <= k < |turns| && turns[k].task != i ==> !turns[k].succeeds
  {
    var own := [Turn(i, true), Turn(i, true)];
    turns := own;
    var free := s;
    if s.holder.Some? && s.tasks[i] == Waiting(Shared) {
      turns := [Turn(s.holder.value, false)] + own;
      free := Take(s, turns[0]);
      FailedBuildReleases(s, s.holder.value);
      assert turns[1..] == own && Schedule(s, turns) == Schedule(free, own);
    }
    var first := Take(free, own[0]);
    var second := Take(first, own[1]);
    assert own[1..] == [Turn(i, true)] && own[1..][1..] == [];
    assert Schedule(free, own) == Schedule(first, own[1..]);
    assert Schedule(first, own[1..]) == Schedule(second, []);
    ScheduleKeepsGuard(s, turns);
  }

  function EmptySlot(caches: seq<CacheMode>): Slot {
    Slot(seq(|caches|, k requires 0 <= k < |caches| => Waiting(caches[k])), None, None, 0)
  }

  /** A task at any point of a connect that asked for `cache`. */
  predicate AskedFor(task: Task, cache: CacheMode) {
    match task
    case Waiting(asked) => asked == cache
    case Building => cache == Shared
    case Connected(used, _) => used == cache
    case Rejected => true
  }

  lemma {:induction false} ScheduleKeepsCaches(s: Slot, turns: seq<Turn>, caches: seq<CacheMode>)
    requires |s.tasks| == |caches| && forall i :: 0 <= i < |caches| ==> AskedFor(s.tasks[i], caches[i])
    ensures var after := Schedule(s, turns);
            |after.tasks| == |caches| && forall i :: 0 <= i < |caches| ==> AskedFor(after.tasks[i], caches[i])
    decreases |turns|
  {
    if turns != [] {
      ScheduleKeepsCaches(Take(s, turns[0]), turns[1..], caches);
    }
  }

  /** Under every interleaving of connects on one state, two that succeed get the same database exactly
      when they are one connect or both asked for the shared cache. */
  lemma SharedConnectsMeet(caches: seq<CacheMode>, turns: seq<Turn>, i: nat, j: nat)
    requires i < |caches| && j < |caches|
    ensures var s := Schedule(EmptySlot(caches), turns);
            && |s.tasks| == |caches|
            && (s.tasks[i].Connected? && s.tasks[j].Connected? ==>
                  (s.tasks[i].database == s.tasks[j].database <==>
                   i == j || (caches[i].Shared? && caches[j].Shared?)))
  {
    ScheduleKeepsGuard(EmptySlot(caches), turns);
    ScheduleKeepsCaches(EmptySlot(caches), turns, caches);
    var s := Schedule(EmptySlot(caches), turns);
    assert AskedFor(s.tasks[i], caches[i]) && AskedFor(s.tasks[j], caches[j]);
    assert Fits(s, i, s.tasks[i]) && Fits(s, j, s.tasks[j]);
    assert i < j ==> Apart(s.tasks[i], s.tasks[j]);
    assert j < i ==> Apart(s.tasks[j], s.tasks[i]);
  }

  /** Options of one in-memory name, however they were derived, meet in one database exactly when both
      still have the shared cache. */
  lemma SameNameMeets(ops: seq<HandleOp>, who: seq<nat>, turns: seq<Turn>, i: nat, j: nat)
    requires i < |who| && j < |who| && Reached(ops).world.targets <= U64_LIMIT
    requires forall k :: 0 <= k < |who| ==> who[k] < |Reached(ops).handles|
    requires forall k :: 0 <= k < |who| ==> Reached(ops).handles[who[k]].target.Memory?
    requires forall k :: 0 <= k < |who| ==>
               Reached(ops).handles[who[k]].target == Reached(ops).handles[who[0]].target
    ensures var handles := Reached(ops).handles;
            var caches := seq(|who|, k requires 0 <= k < |who| => handles[who[k]].cacheMode);
            var s := Schedule(EmptySlot(caches), turns);
            && handles[who[i]].memoryState == handles[who[j]].memoryState
            && |s.tasks| == |who|
            && (s.tasks[i].Connected? && s.tasks[j].Connected? ==>
                  (s.tasks[i].database == s.tasks[j].database <==>
                   i == j || (handles[who[i]].cacheMode.Shared? && handles[who[j]].cacheMode.Shared?)))
  {
    var handles := Reached(ops).handles;
    NamesIdentifyStates(ops, who[i], who[j]);
    SharedConnectsMeet(seq(|who|, k requires 0 <= k < |who| => handles[who[k]].cacheMode), turns, i, j);
  }

  /** What a URL asks for. It is in memory when its database or any of its modes says so; the cache is
      shared by default only then, and the last word on it counts. */
  lemma ParsedUrl(w: World, database: string, decoded: Option<string>, pairs: seq<Pair>)
    ensures var (o, world) := ParseDatabase(w, database, decoded);
            && (o.None? <==> database != "" && database != ":memory:" && decoded.None?)
            && (o.Some? && Read(world, o.value, pairs).Success? ==>
                  var r := Read(world, o.value, pairs).value;
                  var (access, cache) := (Last(pairs, DecidesAccess), Last(pairs, DecidesCache));
                  && (r.target.Memory? <==> database == ":memory:" || MemoryCount(pairs) > 0)
                  && (r.target.File? ==> r.target.path == if database == "" then "" else decoded.value)
                  && (r.cacheMode.Shared? <==>
                        if cache.None? then database == ":memory:" else cache.value.1 != "private")
                  && (r.openMode.ReadOnly? <==> access.Some? && access.value.1 == "ro")
                  && (r.openMode.CreateIfMissing? <==> access.Some? && access.value.1 == "rwc"))
  {
    var (o, world) := ParseDatabase(w, database, decoded);
    if o.Some? {
      ReadMeans(world, o.value, pairs);
    }
  }
}
