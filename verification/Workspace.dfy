/** main.rs of the command line tool: preparing metadata in a staging directory and swapping it with
    the one in use. */
module Workspace {
  import opened Prelude
  import opened Decimal

  /** An entry of the directory that holds the metadata directory and its siblings. */
  datatype Entry<C> = File | Dir(tree: C)

  type Listing<C> = map<string, Entry<C>>

  /** What the environment does to one operation. A removal that fails may have removed anything. */
  datatype Fault<C> = Works | Fails | FailsLeaving(tree: C)

  function Lookup<C>(entries: Listing<C>, name: string): Option<Entry<C>> {
    if name in entries then Some(entries[name]) else None
  }

  ghost predicate Renamed<C>(e: Listing<C>, e': Listing<C>, source: string, target: string) {
    && source in e && target !in e
    && forall n ::
         Lookup(e', n) == if n == target then Lookup(e, source) else if n == source then None else Lookup(e, n)
  }

  ghost predicate SameBut<C>(e: Listing<C>, e': Listing<C>, name: string) {
    forall n :: n != name ==> Lookup(e', n) == Lookup(e, n)
  }

  function NextOf<C>(faults: seq<Fault<C>>): Fault<C> {
    if faults == [] then Works else faults[0]
  }

  function RestOf<C>(faults: seq<Fault<C>>): seq<Fault<C>> {
    if faults == [] then [] else faults[1..]
  }

  class FileSystem<C> {
    var entries: Listing<C>
    var faults: seq<Fault<C>>
    /** The entries after each operation: where a stop between operations can leave them. */
    ghost var history: seq<Listing<C>>

    constructor (entries: Listing<C>, faults: seq<Fault<C>>)
      ensures this.entries == entries && this.faults == faults && history == [entries]
    {
      this.entries, this.faults, this.history := entries, faults, [entries];
    }

    predicate Exists(name: string)
      reads this
    {
      name in entries
    }

    predicate IsDir(name: string)
      reads this
    {
      name in entries && entries[name].Dir?
    }

    method NextFault() returns (fault: Fault<C>)
      modifies this`faults
      ensures fault == NextOf(old(faults)) && faults == RestOf(old(faults))
    {
      if faults == [] {
        return Works;
      }
      fault := faults[0];
      faults := faults[1..];
    }

    method Rename(source: string, target: string) returns (ok: bool)
      modifies this
      ensures ok == (NextOf(old(faults)).Works? && source in old(entries) && target !in old(entries))
      ensures faults == RestOf(old(faults))
      ensures if ok then Renamed(old(entries), entries, source, target) else entries == old(entries)
      ensures history == old(history) + [entries]
    {
      var fault := NextFault();
      ok := fault.Works? && source in entries && target !in entries;
      if ok {
        entries := (entries - {source})[target := entries[source]];
      }
      history := history + [entries];
    }

    method RemoveDirAll(name: string) returns (ok: bool)
      modifies this
      ensures ok == (NextOf(old(faults)).Works? && old(IsDir(name)))
      ensures faults == RestOf(old(faults))
      ensures ok ==> name !in entries
      ensures !ok ==> (name in entries <==> name in old(entries))
      ensures SameBut(old(entries), entries, name)
      ensures history == old(history) + [entries]
    {
      var fault := NextFault();
      ok := fault.Works? && IsDir(name);
      if ok {
        entries := entries - {name};
      } else if fault.FailsLeaving? && IsDir(name) {
        entries := entries[name := Dir(fault.tree)];
      }
      history := history + [entries];
    }

    method CreateDir(name: string, empty: C) returns (ok: bool)
      modifies this
      ensures ok == (NextOf(old(faults)).Works? && name !in old(entries))
      ensures faults == RestOf(old(faults))
      ensures entries == if ok then old(entries)[name := Dir(empty)] else old(entries)
      ensures history == old(history) + [entries]
    {
      var fault := NextFault();
      ok := fault.Works? && name !in entries;
      if ok {
        entries := entries[name := Dir(empty)];
      }
      history := history + [entries];
    }

    /** Creating the parent directory touches nothing in it. */
    method CreateParent() returns (ok: bool)
      modifies this
      ensures ok == NextOf(old(faults)).Works? && faults == RestOf(old(faults))
      ensures entries == old(entries) && history == old(history) + [entries]
    {
      var fault := NextFault();
      ok := fault.Works?;
      history := history + [entries];
    }

    /** A program writes into the directory `name`. */
    method Write(name: string, tree: C)
      modifies this
      ensures faults == old(faults)
      ensures entries == old(entries)[name := Dir(tree)]
      ensures history == old(history) + [entries]
    {
      entries := entries[name := Dir(tree)];
      history := history + [entries];
    }
  }

  /* Unused sibling names. */

  function Candidate(name: string, suffix: string, pid: nat, attempt: nat): string {
    "." + name + "." + suffix + "-" + Print(pid) + "-" + Print(attempt)
  }

  lemma CandidatesDiffer(name: string, suffix: string, pid: nat, attempt: nat, attempt': nat)
    requires Candidate(name, suffix, pid, attempt) == Candidate(name, suffix, pid, attempt')
    ensures attempt == attempt'
  {
    var stem := "." + name + "." + suffix + "-" + Print(pid) + "-";
    assert (stem + Print(attempt))[|stem|..] == Print(attempt);
    assert (stem + Print(attempt'))[|stem|..] == Print(attempt');
  }

  lemma SiblingsDiffer(name: string, pid: nat, attempt: nat, attempt': nat)
    ensures Candidate(name, "tmp", pid, attempt) != name
    ensures Candidate(name, "old", pid, attempt') != name
    ensures Candidate(name, "tmp", pid, attempt) != Candidate(name, "old", pid, attempt')
  {
    var at := |name| + 2;
    assert Candidate(name, "tmp", pid, attempt)[at] == 't';
    assert Candidate(name, "old", pid, attempt')[at] == 'o';
    assert |Candidate(name, "tmp", pid, attempt)| > |name| && |Candidate(name, "old", pid, attempt')| > |name|;
  }

  lemma {:induction false} SubsetSize(a: set<string>, b: set<string>)
    requires a <= b
    ensures |a| <= |b|
  {
    if a != {} {
      var x :| x in a;
      SubsetSize(a - {x}, b - {x});
    }
  }

  ghost function Candidates(name: string, suffix: string, pid: nat, n: nat): set<string> {
    if n == 0 then {} else Candidates(name, suffix, pid, n - 1) + {Candidate(name, suffix, pid, n - 1)}
  }

  lemma {:induction false} CandidateIn(name: string, suffix: string, pid: nat, n: nat, k: nat)
    ensures Candidate(name, suffix, pid, k) in Candidates(name, suffix, pid, n) <==> k < n
  {
    if n > 0 {
      CandidateIn(name, suffix, pid, n - 1, k);
      if Candidate(name, suffix, pid, k) == Candidate(name, suffix, pid, n - 1) {
        CandidatesDiffer(name, suffix, pid, k, n - 1);
      }
    }
  }

  /** Candidates of different attempts are distinct. */
  lemma {:induction false} CandidateCount(name: string, suffix: string, pid: nat, n: nat)
    ensures |Candidates(name, suffix, pid, n)| == n
  {
    if n > 0 {
      CandidateCount(name, suffix, pid, n - 1);
      CandidateIn(name, suffix, pid, n - 1, n - 1);
    }
  }

  /** The first candidate that names nothing, found within one more try than there are entries. */
  method UniqueSibling<C>(fs: FileSystem<C>, name: string, suffix: string, pid: nat)
    returns (candidate: string, ghost attempt: nat)
    ensures candidate == Candidate(name, suffix, pid, attempt) && candidate !in fs.entries
    ensures Candidates(name, suffix, pid, attempt) <= fs.entries.Keys
    ensures attempt <= |fs.entries|
  {
    var i := 0;
    while true
      invariant Candidates(name, suffix, pid, i) <= fs.entries.Keys
      invariant i <= |fs.entries|
      decreases |fs.entries| - i
    {
      candidate, attempt := Candidate(name, suffix, pid, i), i;
      if !fs.Exists(candidate) {
        return;
      }
      i := i + 1;
      CandidateCount(name, suffix, pid, i);
      SubsetSize(Candidates(name, suffix, pid, i), fs.entries.Keys);
    }
  }

  /* The staged swap. */

  datatype PrepareWorkspace = PrepareWorkspace(finalDir: string, stagingDir: string, backupDir: string) {
    predicate Valid() {
      finalDir != stagingDir && finalDir != backupDir && stagingDir != backupDir
    }
  }

  /** Everything but the backup is as it was. */
  ghost predicate InPlace<C>(e: Listing<C>, was: Listing<C>, w: PrepareWorkspace) {
    forall n :: n != w.backupDir ==> Lookup(e, n) == Lookup(was, n)
  }

  /** The old directory is at the backup and nothing is in its place. */
  ghost predicate SetAside<C>(e: Listing<C>, was: Listing<C>, w: PrepareWorkspace) {
    && w.finalDir in was && Lookup(e, w.backupDir) == Lookup(was, w.finalDir) && w.finalDir !in e
    && forall n :: n != w.backupDir && n != w.finalDir ==> Lookup(e, n) == Lookup(was, n)
  }

  /** The staged directory is in place; the backup may be left over. */
  ghost predicate Replaced<C>(e: Listing<C>, was: Listing<C>, w: PrepareWorkspace) {
    && w.stagingDir in was && Lookup(e, w.finalDir) == Lookup(was, w.stagingDir) && w.stagingDir !in e
    && forall n :: n != w.backupDir && n != w.finalDir && n != w.stagingDir ==> Lookup(e, n) == Lookup(was, n)
  }

  ghost predicate Phase<C>(e: Listing<C>, was: Listing<C>, w: PrepareWorkspace) {
    InPlace(e, was, w) || SetAside(e, was, w) || Replaced(e, was, w)
  }

  /** Where a stop, or a failure, at any point from `start` on can leave the directory. */
  ghost predicate Phases<C>(history: seq<Listing<C>>, start: nat, was: Listing<C>, w: PrepareWorkspace) {
    forall i :: start <= i < |history| ==> Phase(history[i], was, w)
  }

  /** Nothing is lost: the old directory is complete in its place or at the backup, or the new one is in place. */
  ghost predicate Safe<C>(
    e: Listing<C>, finalDir: string, backup: Option<string>, old': Entry<C>, staged: Option<Entry<C>>)
  {
    || Lookup(e, finalDir) == Some(old')
    || (staged.Some? && Lookup(e, finalDir) == staged)
    || (backup.Some? && Lookup(e, backup.value) == Some(old'))
  }

  lemma PhasesAreSafe<C>(e: Listing<C>, was: Listing<C>, w: PrepareWorkspace)
    requires w.Valid() && Phase(e, was, w) && w.finalDir in was
    ensures Safe(e, w.finalDir, Some(w.backupDir), was[w.finalDir], Lookup(was, w.stagingDir))
  {
    if SetAside(e, was, w) {
      assert Lookup(e, w.backupDir) == Some(was[w.finalDir]);
    }
  }

  lemma PhaseAdded<C>(history: seq<Listing<C>>, start: nat, e: Listing<C>, was: Listing<C>, w: PrepareWorkspace)
    requires Phases(history, start, was, w) && Phase(e, was, w)
    ensures Phases(history + [e], start, was, w)
  {}

  lemma SetAsideStep<C>(e: Listing<C>, e': Listing<C>, was: Listing<C>, w: PrepareWorkspace)
    requires w.Valid() && InPlace(e, was, w) && Renamed(e, e', w.finalDir, w.backupDir)
    ensures SetAside(e', was, w)
    ensures DirOrNothing(e, w.finalDir) ==> DirOrNothing(e', w.backupDir)
    ensures w.backupDir in e' && w.finalDir !in e' && (w.stagingDir in e ==> w.stagingDir in e')
  {
    assert Lookup(e, w.finalDir) == Lookup(was, w.finalDir);
    assert Lookup(e', w.finalDir) == None && Lookup(e', w.backupDir) == Lookup(e, w.finalDir);
    assert Lookup(e', w.stagingDir) == Lookup(e, w.stagingDir);
  }

  lemma ReplaceStep<C>(e: Listing<C>, e': Listing<C>, was: Listing<C>, w: PrepareWorkspace)
    requires w.Valid() && (InPlace(e, was, w) || SetAside(e, was, w)) && Renamed(e, e', w.stagingDir, w.finalDir)
    ensures Replaced(e', was, w) && (w.backupDir in e' <==> w.backupDir in e)
    ensures DirOrNothing(e, w.backupDir) ==> DirOrNothing(e', w.backupDir)
  {
    assert Lookup(e, w.stagingDir) == Lookup(was, w.stagingDir);
    assert Lookup(e', w.finalDir) == Lookup(e, w.stagingDir) && Lookup(e', w.stagingDir) == None;
    assert Lookup(e', w.backupDir) == Lookup(e, w.backupDir);
  }

  lemma RestoreStep<C>(e: Listing<C>, e': Listing<C>, was: Listing<C>, w: PrepareWorkspace)
    requires w.Valid() && SetAside(e, was, w) && Renamed(e, e', w.backupDir, w.finalDir)
    ensures InPlace(e', was, w)
  {
    assert Lookup(e', w.finalDir) == Lookup(e, w.backupDir);
  }

  lemma RemovalStep<C>(e: Listing<C>, e': Listing<C>, was: Listing<C>, w: PrepareWorkspace)
    requires w.Valid() && SameBut(e, e', w.backupDir)
    ensures InPlace(e, was, w) ==> InPlace(e', was, w)
    ensures Replaced(e, was, w) ==> Replaced(e', was, w)
    ensures DirOrNothing(e, w.finalDir) ==> DirOrNothing(e', w.finalDir)
    ensures w.stagingDir in e ==> w.stagingDir in e'
  {
    assert Lookup(e', w.finalDir) == Lookup(e, w.finalDir) && Lookup(e', w.stagingDir) == Lookup(e, w.stagingDir);
  }

  /** The environment lets every operation but one, if any, work. */
  ghost predicate AtMostOneFails<C>(faults: seq<Fault<C>>) {
    forall i, j :: 0 <= i < j < |faults| ==> faults[i].Works? || faults[j].Works?
  }

  lemma RestFailsLess<C>(faults: seq<Fault<C>>)
    ensures AtMostOneFails(faults) ==> AtMostOneFails(RestOf(faults))
  {
    if faults != [] {
      assert forall i :: 0 <= i < |faults| - 1 ==> faults[1..][i] == faults[i + 1];
    }
  }

  predicate DirOrNothing<C>(e: Listing<C>, name: string) {
    name in e ==> e[name].Dir?
  }

  /** When nothing but the environment can make a commit fail. */
  predicate Ready<C>(e: Listing<C>, w: PrepareWorkspace) {
    w.stagingDir in e && DirOrNothing(e, w.backupDir) && DirOrNothing(e, w.finalDir)
  }

  /** The second half of a commit, once the old directory, if there is one, has been set aside. */
  method PutInPlace<C>(fs: FileSystem<C>, w: PrepareWorkspace, hadExisting: bool, ghost was: Listing<C>)
    returns (ok: bool)
    requires w.Valid() && (if hadExisting then SetAside(fs.entries, was, w) else InPlace(fs.entries, was, w))
    modifies fs
    ensures old(fs.history) < fs.history && fs.history[|fs.history| - 1] == fs.entries
    ensures Phases(fs.history, |old(fs.history)|, was, w)
    ensures ok ==> Replaced(fs.entries, was, w)
    ensures ok ==> (w.backupDir in fs.entries <==> !hadExisting && w.backupDir in old(fs.entries))
    ensures old(fs.faults) == [] && w.stagingDir in old(fs.entries) && w.finalDir !in old(fs.entries) ==>
              (hadExisting ==> old(fs.IsDir(w.backupDir))) ==> ok
    ensures w.stagingDir in old(fs.entries) && w.finalDir !in old(fs.entries) ==>
              if NextOf(old(fs.faults)).Works? then Replaced(fs.entries, was, w)
              else if !hadExisting || NextOf(RestOf(old(fs.faults))).Works? then InPlace(fs.entries, was, w)
              else SetAside(fs.entries, was, w)
  {
    ghost var start := |fs.history|;
    ghost var e, past := fs.entries, fs.history;
    ok := fs.Rename(w.stagingDir, w.finalDir);
    if ok {
      ReplaceStep(e, fs.entries, was, w);
    }
    PhaseAdded(past, start, fs.entries, was, w);
    if !hadExisting {
      return;
    }
    e, past := fs.entries, fs.history;
    if ok {
      ok := fs.RemoveDirAll(w.backupDir);
      RemovalStep(e, fs.entries, was, w);
    } else {
      var restored := fs.Rename(w.backupDir, w.finalDir);
      if restored {
        RestoreStep(e, fs.entries, was, w);
      }
    }
    PhaseAdded(past, start, fs.entries, was, w);
  }

  /** Replaces the final directory by the staged one. At every moment, and whatever fails, the directory
      is in one of the three phases; success means the last one, with no backup left. */
  method Commit<C>(fs: FileSystem<C>, w: PrepareWorkspace) returns (ok: bool)
    requires w.Valid()
    modifies fs
    ensures old(fs.history) < fs.history && fs.history[|fs.history| - 1] == fs.entries
    ensures Phases(fs.history, |old(fs.history)|, old(fs.entries), w)
    ensures ok ==> Replaced(fs.entries, old(fs.entries), w) && w.backupDir !in fs.entries
    ensures old(fs.faults) == [] && Ready(old(fs.entries), w) ==> ok
    ensures AtMostOneFails(old(fs.faults)) && w.stagingDir in old(fs.entries) ==>
              InPlace(fs.entries, old(fs.entries), w) || Replaced(fs.entries, old(fs.entries), w)
  {
    ghost var was, start := fs.entries, |fs.history|;
    ghost var e, past := fs.entries, fs.history;
    assert Phases(past, start, was, w);
    if fs.Exists(w.backupDir) {
      ok := fs.RemoveDirAll(w.backupDir);
      RemovalStep(e, fs.entries, was, w);
      PhaseAdded(past, start, fs.entries, was, w);
      if !ok {
        return;
      }
    }

    var hadExisting := fs.Exists(w.finalDir);
    if hadExisting {
      e, past := fs.entries, fs.history;
      ok := fs.Rename(w.finalDir, w.backupDir);
      if ok {
        SetAsideStep(e, fs.entries, was, w);
      }
      PhaseAdded(past, start, fs.entries, was, w);
      if !ok {
        return;
      }
    }

    past := fs.history;
    ok := PutInPlace(fs, w, hadExisting, was);
    PhasesJoin(past, fs.history, start, was, w);
  }

  lemma PhasesJoin<C>(past: seq<Listing<C>>, all: seq<Listing<C>>, start: nat, was: Listing<C>, w: PrepareWorkspace)
    requires past <= all && Phases(past, start, was, w) && Phases(all, |past|, was, w)
    ensures Phases(all, start, was, w)
  {
    forall i | start <= i < |all| ensures Phase(all[i], was, w) {
      if i < |past| {
        assert all[i] == past[i];
      }
    }
  }

  method Cleanup<C>(fs: FileSystem<C>, w: PrepareWorkspace)
    modifies fs
    ensures SameBut(old(fs.entries), fs.entries, w.stagingDir)
    ensures NextOf(old(fs.faults)).Works? && old(fs.IsDir(w.stagingDir)) ==> w.stagingDir !in fs.entries
    ensures fs.history == old(fs.history) + [fs.entries]
  {
    var _ := fs.RemoveDirAll(w.stagingDir);
  }

  /** Creates an empty staging directory beside the final one and picks an unused backup name. */
  method Create<C>(fs: FileSystem<C>, finalDir: string, pid: nat, empty: C)
    returns (w: Option<PrepareWorkspace>, ghost tried: nat, ghost attempt: nat)
    modifies fs
    ensures old(fs.history) <= fs.history
    ensures forall i :: |old(fs.history)| <= i < |fs.history| ==>
              fs.history[i] == old(fs.entries) || fs.history[i] == fs.entries
    ensures w.None? ==> fs.entries == old(fs.entries)
    ensures w.Some? ==> fs.faults == RestOf(RestOf(old(fs.faults)))
    ensures old(fs.faults) == [] ==>
              fs.faults == [] && (w.Some? <==> DirOrNothing(old(fs.entries), finalDir))
    ensures w.Some? ==>
              && w.value.Valid() && w.value.finalDir == finalDir && (finalDir in fs.entries ==> fs.IsDir(finalDir))
              && w.value.stagingDir !in old(fs.entries) && w.value.backupDir !in fs.entries
              && fs.entries == old(fs.entries)[w.value.stagingDir := Dir(empty)]
              && w.value.stagingDir == Candidate(finalDir, "tmp", pid, tried)
              && w.value.backupDir == Candidate(finalDir, "old", pid, attempt)
              && Candidates(finalDir, "old", pid, attempt) <= fs.entries.Keys
  {
    tried, attempt := 0, 0;
    if fs.Exists(finalDir) && !fs.IsDir(finalDir) {
      w := None;
      return;
    }
    var ok := fs.CreateParent();
    if !ok {
      w := None;
      return;
    }
    var staging;
    staging, tried := UniqueSibling(fs, finalDir, "tmp", pid);
    ok := fs.CreateDir(staging, empty);
    if !ok {
      w := None;
      return;
    }
    var backup;
    backup, attempt := UniqueSibling(fs, finalDir, "old", pid);
    SiblingsDiffer(finalDir, pid, tried, attempt);
    w := Some(PrepareWorkspace(finalDir, staging, backup));
  }

  /** The outcome of `cargo check`, with what it has written to the staging directory. */
  datatype Check<C> = NotStarted | Unsuccessful(tree: C) | Successful(tree: C)

  /** The run from the check on, in a workspace that has been created. */
  method CheckAndCommit<C>(fs: FileSystem<C>, w: PrepareWorkspace, check: Check<C>) returns (ok: bool)
    requires w.Valid() && w.stagingDir in fs.entries && w.backupDir !in fs.entries
    modifies fs
    ensures old(fs.history) <= fs.history
    ensures w.finalDir in old(fs.entries) ==>
              forall i :: |old(fs.history)| <= i < |fs.history| ==>
                Safe(fs.history[i], w.finalDir, Some(w.backupDir), old(fs.entries)[w.finalDir], Staged(check))
    ensures ok ==> check.Successful? && w.backupDir !in fs.entries
    ensures ok ==> Replaced(fs.entries, old(fs.entries)[w.stagingDir := Dir(check.tree)], w)
    ensures !check.Successful? ==> SameBut(old(fs.entries), fs.entries, w.stagingDir)
    ensures check.NotStarted? ==> fs.entries == old(fs.entries)
    ensures old(fs.faults) == [] && check.Unsuccessful? ==> w.stagingDir !in fs.entries
    ensures old(fs.faults) == [] && check.Successful? && DirOrNothing(old(fs.entries), w.finalDir) ==> ok
    ensures AtMostOneFails(old(fs.faults)) && w.finalDir in old(fs.entries) ==>
              IsOldOrNew(fs.entries, w.finalDir, old(fs.entries)[w.finalDir], Staged(check))
  {
    if check.NotStarted? {
      return false;
    }
    fs.Write(w.stagingDir, check.tree);
    if check.Unsuccessful? {
      Cleanup(fs, w);
      assert Lookup(fs.entries, w.finalDir) == Lookup(old(fs.entries), w.finalDir);
      return false;
    }
    ghost var was, start := fs.entries, |fs.history|;
    ok := Commit(fs, w);
    if w.finalDir in was {
      HistoryIsSafe(fs.history, start, was, w);
    }
  }

  /** The complete old tree or the complete new one is in place. */
  ghost predicate IsOldOrNew<C>(e: Listing<C>, finalDir: string, old': Entry<C>, staged: Option<Entry<C>>) {
    Lookup(e, finalDir) == Some(old') || (staged.Some? && Lookup(e, finalDir) == staged)
  }

  /** What a check leaves to be put in place. */
  function Staged<C>(check: Check<C>): Option<Entry<C>> {
    if check.Successful? then Some(Dir(check.tree)) else None
  }

  /** A whole run of `prepare`. `backup`, once there is one, is a name for backups that was unused before the run. */
  method RunWithProgram<C>(fs: FileSystem<C>, finalDir: string, pid: nat, empty: C, check: Check<C>)
    returns (ok: bool, ghost backup: Option<string>)
    modifies fs
    ensures old(fs.history) <= fs.history
    ensures backup.Some? ==>
              backup.value !in old(fs.entries) && exists k :: backup.value == Candidate(finalDir, "old", pid, k)
    ensures finalDir in old(fs.entries) ==>
              forall i :: |old(fs.history)| <= i < |fs.history| ==>
                Safe(fs.history[i], finalDir, backup, old(fs.entries)[finalDir], Staged(check))
    ensures ok ==> check.Successful? && fs.entries == old(fs.entries)[finalDir := Dir(check.tree)]
    ensures !check.Successful? ==> Lookup(fs.entries, finalDir) == Lookup(old(fs.entries), finalDir)
    ensures old(fs.faults) == [] && check.Unsuccessful? ==> fs.entries == old(fs.entries)
    ensures backup.Some? && check.NotStarted? ==>
              exists k :: fs.entries == old(fs.entries)[Candidate(finalDir, "tmp", pid, k) := Dir(empty)]
    ensures old(fs.faults) == [] && check.Successful? && DirOrNothing(old(fs.entries), finalDir) ==> ok
    ensures AtMostOneFails(old(fs.faults)) && finalDir in old(fs.entries) ==>
              IsOldOrNew(fs.entries, finalDir, old(fs.entries)[finalDir], Staged(check))
  {
    ok, backup := false, None;
    var w, tried, attempt := Create(fs, finalDir, pid, empty);
    if w.None? {
      return;
    }
    backup := Some(w.value.backupDir);
    ghost var was := fs.entries;
    RestFailsLess(old(fs.faults));
    RestFailsLess(RestOf(old(fs.faults)));
    ok := CheckAndCommit(fs, w.value, check);
    RunEnds(fs.entries, was, old(fs.entries), w.value, empty, check, ok);
  }

  lemma RunEnds<C>(
      e: Listing<C>, was: Listing<C>, before: Listing<C>, w: PrepareWorkspace, empty: C, check: Check<C>, ok: bool)
    requires w.Valid() && w.stagingDir !in before && w.backupDir !in before && was == before[w.stagingDir := Dir(empty)]
    requires ok ==> check.Successful? && w.backupDir !in e && Replaced(e, was[w.stagingDir := Dir(check.tree)], w)
    requires !check.Successful? ==> SameBut(was, e, w.stagingDir)
    ensures ok ==> e == before[w.finalDir := Dir(check.tree)]
    ensures !check.Successful? ==> Lookup(e, w.finalDir) == Lookup(before, w.finalDir)
    ensures !check.Successful? && w.stagingDir !in e ==> e == before
  {
    if ok {
      ReplacedIs(e, was[w.stagingDir := Dir(check.tree)], before, w, Dir(check.tree));
    } else if !check.Successful? {
      CleanedUp(e, was, before, w, Dir(empty));
    }
  }

  lemma HistoryIsSafe<C>(history: seq<Listing<C>>, start: nat, was: Listing<C>, w: PrepareWorkspace)
    requires w.Valid() && Phases(history, start, was, w) && w.finalDir in was
    ensures forall i :: start <= i < |history| ==>
              Safe(history[i], w.finalDir, Some(w.backupDir), was[w.finalDir], Lookup(was, w.stagingDir))
  {
    forall i | start <= i < |history|
      ensures Safe(history[i], w.finalDir, Some(w.backupDir), was[w.finalDir], Lookup(was, w.stagingDir))
    {
      PhasesAreSafe(history[i], was, w);
    }
  }

  lemma CleanedUp<C>(e: Listing<C>, was: Listing<C>, before: Listing<C>, w: PrepareWorkspace, tree: Entry<C>)
    requires w.Valid() && SameBut(was, e, w.stagingDir) && w.stagingDir !in before
    requires was == before[w.stagingDir := tree]
    ensures Lookup(e, w.finalDir) == Lookup(before, w.finalDir)
    ensures w.stagingDir !in e ==> e == before
  {
    if w.stagingDir !in e {
      SameLookups(e, before);
    }
  }

  lemma ReplacedIs<C>(e: Listing<C>, was: Listing<C>, before: Listing<C>, w: PrepareWorkspace, tree: Entry<C>)
    requires w.Valid() && Replaced(e, was, w) && w.backupDir !in e && w.backupDir !in before && w.stagingDir !in before
    requires was == before[w.stagingDir := tree]
    ensures e == before[w.finalDir := tree]
  {
    forall n ensures Lookup(e, n) == Lookup(before[w.finalDir := tree], n) {
      assert Lookup(was, n) == if n == w.stagingDir then Some(tree) else Lookup(before, n);
    }
    SameLookups(e, before[w.finalDir := tree]);
  }

  lemma SameLookups<C>(a: Listing<C>, b: Listing<C>)
    requires forall n :: Lookup(a, n) == Lookup(b, n)
    ensures a == b
  {
    forall n ensures n in a <==> n in b {
      assert Lookup(a, n) == Lookup(b, n);
    }
    forall n | n in a ensures a[n] == b[n] {
      assert Lookup(a, n) == Lookup(b, n);
    }
  }
}
