/**
 The migration runner: the bootstrap file executed at every launch, then the pending files one
 by one, each in a transaction together with its ledger row unless the file commits by itself,
 failures recorded outside it, over any number of launches.
 */
module MigrationRunner {
  import opened Common
  import opened Digests

  datatype Status = Success | Failed

  datatype Applied = Applied(checksum: string, status: Status)

  datatype Body = Body(name: string, content: string)

  /** `bodies` lists the SQL that committed; `failures` the files a failure was recorded for. */
  datatype Db = Db(applied: map<string, Applied>, bodies: seq<Body>, failures: set<string>)

  const BOOTSTRAP := "000_bootstrap.sql"

  /** What the database takes for a file that ends its transaction with a COMMIT of its own. */
  datatype Site = Site(hash: Hash, ownCommit: string -> bool)

  /**
   How one file goes. A rolled-back file's failure may itself fail to be recorded; a commit may
   succeed although its acknowledgement is lost; the process may die before the body, between
   the body and its row, or after the commit; and what follows the body, its row at the latest,
   may fail.
   */
  datatype Outcome =
    | Commits | RollsBack(recorded: bool) | CommitsUnseen(recorded: bool)
    | DiesBefore | DiesBetween | DiesAfter | RowFails(recorded: bool)

  /** How a launch gets to its pending files: after the bootstrap file, the lock and the backup. */
  datatype Startup = Ready | BootstrapFails(committed: bool) | StopsAfterBootstrap

  /** One start of the script: the directory listing, the file contents, and what happens. */
  datatype Launch = Launch(files: seq<string>, content: string -> string, startup: Startup, outcomes: seq<Outcome>)

  datatype Report = NotStarted | UpToDate | AllApplied(count: nat) | SomeFailed(count: nat) | Died

  // ---------------------------------------------------------------- the ledger

  /** INSERT ... ON CONFLICT (name) DO UPDATE, which leaves an existing checksum alone. */
  function Record(applied: map<string, Applied>, name: string, checksum: string, status: Status): map<string, Applied> {
    applied[name := Applied(if name in applied then applied[name].checksum else checksum, status)]
  }

  /** The checksum the run reads for a file: of a successful row, if there is one. */
  function Known(applied: map<string, Applied>, name: string): Option<string> {
    if name in applied && applied[name].status.Success? then Some(applied[name].checksum) else None
  }

  /** `!applied[f]`: absent, or an empty checksum. */
  predicate IsPending(applied: map<string, Applied>, name: string) {
    Known(applied, name) in {None, Some("")}
  }

  function Pending(applied: map<string, Applied>, files: seq<string>): seq<string> {
    Filter(files, (f: string) => IsPending(applied, f))
  }

  /** Whether a file's content passes the comparison with the recorded checksum. */
  predicate ChecksumPasses(site: Site, content: string, recorded: Option<string>) {
    recorded.Some? && recorded.value != "" ==> site.hash(content) == recorded.value
  }

  // ---------------------------------------------------------------- one file

  function RecordFailure(db: Db, name: string, recorded: bool): Db {
    if recorded
    then Db(Record(db.applied, name, "", Failed), db.bodies, db.failures + {name})
    else db
  }

  function CommitFile(site: Site, db: Db, name: string, content: string): Db {
    Db(Record(db.applied, name, site.hash(content), Success), db.bodies + [Body(name, content)], db.failures)
  }

  /** The body alone, durable through the file's own COMMIT. */
  function CommitBody(site: Site, db: Db, name: string, content: string): Db {
    if site.ownCommit(content) then Db(db.applied, db.bodies + [Body(name, content)], db.failures) else db
  }

  function RunFile(site: Site, db: Db, name: string, content: string, expected: Option<string>, o: Outcome): Db {
    if !ChecksumPasses(site, content, expected) then RecordFailure(db, name, true)
    else match o
      case Commits | DiesAfter => CommitFile(site, db, name, content)
      case RollsBack(recorded) => RecordFailure(db, name, recorded)
      case CommitsUnseen(recorded) => RecordFailure(CommitFile(site, db, name, content), name, recorded)
      case DiesBefore => db
      case DiesBetween => CommitBody(site, db, name, content)
      case RowFails(recorded) => RecordFailure(CommitBody(site, db, name, content), name, recorded)
  }

  // ---------------------------------------------------------------- one run

  predicate Dies(o: Outcome) {
    o.DiesBefore? || o.DiesBetween? || o.DiesAfter?
  }

  function RunPending(site: Site, db: Db, before: map<string, Applied>, pending: seq<string>, launch: Launch,
                      outcomes: seq<Outcome>, done: nat, failed: nat): (r: (Db, Report))
    ensures !r.1.UpToDate? && !r.1.NotStarted?
    decreases |pending|
  {
    if pending == [] then (db, if failed > 0 then SomeFailed(failed) else AllApplied(done))
    else if outcomes == [] then (db, Died)
    else
      var name, o := pending[0], outcomes[0];
      var passes := ChecksumPasses(site, launch.content(name), Known(before, name));
      var next := RunFile(site, db, name, launch.content(name), Known(before, name), o);
      if passes && Dies(o) then (next, Died)
      else if passes && o.Commits? then
        RunPending(site, next, before, pending[1..], launch, outcomes[1..], done + 1, failed)
      else RunPending(site, next, before, pending[1..], launch, outcomes[1..], done, failed + 1)
  }

  /** The bootstrap file is executed on its own, at every launch, applied or not. */
  function Bootstrapped(db: Db, launch: Launch): Db {
    db.(bodies := db.bodies + [Body(BOOTSTRAP, launch.content(BOOTSTRAP))])
  }

  function Run(site: Site, db: Db, launch: Launch): (Db, Report) {
    if BOOTSTRAP !in launch.files || launch.startup == BootstrapFails(false) then (db, NotStarted)
    else if !launch.startup.Ready? then (Bootstrapped(db, launch), NotStarted)
    else RunFiles(site, Bootstrapped(db, launch), launch)
  }

  function RunFiles(site: Site, db: Db, launch: Launch): (Db, Report) {
    var pending := Pending(db.applied, launch.files);
    if pending == [] then (db, UpToDate)
    else RunPending(site, db, db.applied, pending, launch, launch.outcomes, 0, 0)
  }

  function Runs(site: Site, db: Db, launches: seq<Launch>): Db
    decreases |launches|
  {
    if launches == [] then db else Runs(site, Run(site, db, launches[0]).0, launches[1..])
  }

  const EMPTY := Db(map[], [], {})

  class MigrationDatabase {
    var applied: map<string, Applied>
    var bodies: seq<Body>
    ghost var failures: set<string>

    ghost function View(): Db
      reads this
    {
      Db(applied, bodies, failures)
    }

    method RecordMigration(name: string, checksum: string, status: Status)
      modifies this`applied
      ensures applied == Record(old(applied), name, checksum, status)
    {
      if name in applied {
        applied := applied[name := applied[name].(status := status)];
      } else {
        applied := applied[name := Applied(checksum, status)];
      }
    }

    /**
     One file. The body and its row are written together or not at all, unless the file commits
     by itself: then its body is durable before its row is written.
     */
    method RunMigration(site: Site, name: string, content: string, expected: Option<string>, o: Outcome)
      returns (ok: bool)
      modifies this
      ensures View() == RunFile(site, old(View()), name, content, expected, o)
      ensures ok <==> ChecksumPasses(site, content, expected) && o.Commits?
      ensures bodies == old(bodies) || bodies == old(bodies) + [Body(name, content)]
      ensures bodies != old(bodies) && !site.ownCommit(content) ==>
                name in applied && (applied[name].status.Success? || name in failures)
      ensures bodies == old(bodies) && name in applied && applied[name].status.Success? ==>
                name in old(applied) && applied[name] == old(applied)[name]
      ensures applied - {name} == old(applied) - {name}
    {
      var failureRecorded := true;
      if ChecksumPasses(site, content, expected) {
        if o.DiesBefore? {
          return false;
        }
        var own := site.ownCommit(content);
        if own && !o.RollsBack? {
          bodies := bodies + [Body(name, content)];
        }
        if o.DiesBetween? {
          return false;
        }
        if o.Commits? || o.CommitsUnseen? || o.DiesAfter? {
          if !own {
            bodies := bodies + [Body(name, content)];
          }
          RecordMigration(name, site.hash(content), Success);
          if !o.CommitsUnseen? {
            return o.Commits?;
          }
        }
        failureRecorded := o.recorded;
      }
      if failureRecorded {
        RecordMigration(name, "", Failed);
        failures := failures + {name};
      }
      return false;
    }

    method RunMigrations(site: Site, launch: Launch) returns (report: Report)
      modifies this
      ensures (View(), report) == Run(site, old(View()), launch)
    {
      if BOOTSTRAP !in launch.files || launch.startup == BootstrapFails(false) {
        return NotStarted;
      }
      bodies := bodies + [Body(BOOTSTRAP, launch.content(BOOTSTRAP))];
      if !launch.startup.Ready? {
        return NotStarted;
      }
      report := ApplyPending(site, launch);
    }

    method ApplyPending(site: Site, launch: Launch) returns (report: Report)
      modifies this
      ensures (View(), report) == RunFiles(site, old(View()), launch)
    {
      var before := applied;
      var pending := Pending(before, launch.files);
      if pending == [] {
        return UpToDate;
      }
      var outcomes, done, failed: nat := launch.outcomes, 0, 0;
      ghost var result := RunFiles(site, View(), launch);
      while pending != []
        invariant RunPending(site, View(), before, pending, launch, outcomes, done, failed) == result
        decreases |pending|
      {
        if outcomes == [] {
          return Died;
        }
        var name, o := pending[0], outcomes[0];
        var content := launch.content(name);
        var ok := RunMigration(site, name, content, Known(before, name), o);
        pending, outcomes := pending[1..], outcomes[1..];
        if ChecksumPasses(site, content, Known(before, name)) && Dies(o) {
          return Died;
        }
        if ok {
          done := done + 1;
        } else {
          failed := failed + 1;
        }
      }
      return if failed > 0 then SomeFailed(failed) else AllApplied(done);
    }
  }

  // ---------------------------------------------------------------- at most once

  /** The contents that were committed for a file, in order. */
  function BodiesOf(bodies: seq<Body>, name: string): seq<string> {
    if bodies == [] then []
    else BodiesOf(bodies[..|bodies| - 1], name) + (if Last(bodies).name == name then [Last(bodies).content] else [])
  }

  lemma BodiesAppend(bodies: seq<Body>, b: Body, name: string)
    ensures BodiesOf(bodies + [b], name) == BodiesOf(bodies, name) + (if b.name == name then [b.content] else [])
  {
    assert (bodies + [b])[..|bodies|] == bodies;
  }

  ghost predicate Distinct(files: seq<string>) {
    forall i, j :: 0 <= i < j < |files| ==> files[i] != files[j]
  }

  ghost predicate AllDistinct(launches: seq<Launch>) {
    forall l :: l in launches ==> Distinct(l.files)
  }

  /** A file with no recorded failure is untouched, or was committed once with its own record. */
  ghost predicate Once(site: Site, db: Db, name: string) {
    name !in db.failures ==> OnceWithRow(site, db, name)
  }

  ghost predicate OnceWithRow(site: Site, db: Db, name: string) {
    var contents := BodiesOf(db.bodies, name);
    && |contents| <= 1
    && (name in db.applied <==> contents != [])
    && (contents != [] ==> db.applied[name] == Applied(site.hash(contents[0]), Success))
  }

  /** Nothing that concerns the file has changed. */
  ghost predicate Untouched(before: Db, after: Db, name: string) {
    && BodiesOf(after.bodies, name) == BodiesOf(before.bodies, name)
    && (name in after.applied <==> name in before.applied)
    && (name in after.applied ==> after.applied[name] == before.applied[name])
    && (name in after.failures <==> name in before.failures)
  }

  lemma OtherFileUntouched(
    site: Site, db: Db, name: string, content: string, expected: Option<string>, o: Outcome, other: string)
    requires other != name
    ensures Untouched(db, RunFile(site, db, name, content, expected, o), other)
  {
    OtherBody(db.bodies, Body(name, content), other);
    RunFileBodies(site, db, name, content, expected, o);
  }

  lemma OtherBody(bodies: seq<Body>, b: Body, name: string)
    requires b.name != name
    ensures BodiesOf(bodies + [b], name) == BodiesOf(bodies, name)
  {
    BodiesAppend(bodies, b, name);
  }

  lemma RunFileBodies(site: Site, db: Db, name: string, content: string, expected: Option<string>, o: Outcome)
    ensures RunFile(site, db, name, content, expected, o).bodies in {db.bodies, db.bodies + [Body(name, content)]}
  {
  }

  lemma RunFileOnce(site: Site, db: Db, name: string, content: string, expected: Option<string>, o: Outcome)
    requires Once(site, db, name) && !site.ownCommit(content) && (name !in db.failures ==> name !in db.applied)
    ensures Once(site, RunFile(site, db, name, content, expected, o), name)
  {
    BodiesAppend(db.bodies, Body(name, content), name);
  }

  ghost predicate Fresh(db: Db, pending: seq<string>, name: string) {
    name in pending && name !in db.failures ==> name !in db.applied
  }

  lemma {:induction false} RunPendingOnce(
    site: Site, db: Db, before: map<string, Applied>, pending: seq<string>,
    launch: Launch, outcomes: seq<Outcome>, done: nat, failed: nat, name: string)
    requires Distinct(pending) && Fresh(db, pending, name) && Once(site, db, name)
    requires !site.ownCommit(launch.content(name))
    ensures Once(site, RunPending(site, db, before, pending, launch, outcomes, done, failed).0, name)
    decreases |pending|
  {
    if pending != [] && outcomes != [] {
      var file, o := pending[0], outcomes[0];
      var next := RunFile(site, db, file, launch.content(file), Known(before, file), o);
      if file == name {
        RunFileOnce(site, db, file, launch.content(file), Known(before, file), o);
      } else {
        OtherFileUntouched(site, db, file, launch.content(file), Known(before, file), o, name);
      }
      RunPendingOnce(site, next, before, pending[1..], launch, outcomes[1..], done + 1, failed, name);
      RunPendingOnce(site, next, before, pending[1..], launch, outcomes[1..], done, failed + 1, name);
    }
  }

  lemma {:induction false} FilterDistinct(files: seq<string>, keep: string -> bool)
    requires Distinct(files)
    ensures Distinct(Filter(files, keep))
  {
    if files != [] {
      FilterDistinct(files[1..], keep);
      var rest := Filter(files[1..], keep);
      forall i | 0 <= i < |rest| ensures rest[i] != files[0] {
        assert rest[i] in files[1..];
      }
    }
  }

  lemma OnceNotPending(site: Site, db: Db, name: string)
    requires Once(site, db, name) && name !in db.failures && name in db.applied
    ensures !IsPending(db.applied, name)
  {
    assert |site.hash(BodiesOf(db.bodies, name)[0])| == 64;
  }

  lemma RunOnce(site: Site, db: Db, launch: Launch, name: string)
    requires Distinct(launch.files) && Once(site, db, name)
    requires name != BOOTSTRAP && !site.ownCommit(launch.content(name))
    ensures Once(site, Run(site, db, launch).0, name)
  {
    var db1 := Bootstrapped(db, launch);
    BodiesAppend(db.bodies, Body(BOOTSTRAP, launch.content(BOOTSTRAP)), name);
    assert BodiesOf(db1.bodies, name) == BodiesOf(db.bodies, name);
    FilterDistinct(launch.files, (f: string) => IsPending(db1.applied, f));
    var pending := Pending(db1.applied, launch.files);
    if name in pending && name !in db1.failures && name in db1.applied {
      OnceNotPending(site, db1, name);
      assert false;
    }
    RunPendingOnce(site, db1, db1.applied, pending, launch, launch.outcomes, 0, 0, name);
  }

  /** In no launch does the file have a COMMIT of its own. */
  ghost predicate NeverOwn(site: Site, launches: seq<Launch>, name: string) {
    forall l :: l in launches ==> !site.ownCommit(l.content(name))
  }

  lemma {:induction false} RunsOnce(site: Site, db: Db, launches: seq<Launch>, name: string)
    requires AllDistinct(launches) && Once(site, db, name)
    requires name != BOOTSTRAP && NeverOwn(site, launches, name)
    ensures Once(site, Runs(site, db, launches), name)
    decreases |launches|
  {
    if launches != [] {
      assert launches[0] in launches;
      RunOnce(site, db, launches[0], name);
      RunsOnce(site, Run(site, db, launches[0]).0, launches[1..], name);
    }
  }

  /**
   Over any sequence of runs, with failures and crashes anywhere: a file other than the
   bootstrap file, without a COMMIT of its own, that never had a failure recorded commits at
   most once, and it has a record exactly when its body committed, a success with the checksum
   of the committed content.
   */
  lemma AtMostOnce(site: Site, launches: seq<Launch>, name: string)
    requires AllDistinct(launches) && name !in Runs(site, EMPTY, launches).failures
    requires name != BOOTSTRAP && NeverOwn(site, launches, name)
    ensures OnceWithRow(site, Runs(site, EMPTY, launches), name)
  {
    RunsOnce(site, EMPTY, launches, name);
  }

  // ---------------------------------------------------------------- more than once

  /** Every launch finds these contents, and the listing names no file twice. */
  ghost predicate Shipped(launches: seq<Launch>, content: string -> string) {
    AllDistinct(launches) && forall l, f :: l in launches ==> l.content(f) == content(f)
  }

  ghost predicate AlwaysOnce(site: Site, content: string -> string, name: string) {
    forall launches :: Shipped(launches, content) && name !in Runs(site, EMPTY, launches).failures ==>
      OnceWithRow(site, Runs(site, EMPTY, launches), name)
  }

  lemma RunsOne(site: Site, db: Db, l: Launch)
    ensures Runs(site, db, [l]) == Run(site, db, l).0
  {
    assert [l][1..] == [];
  }

  lemma RunsTwo(site: Site, db: Db, l: Launch, m: Launch)
    ensures Runs(site, db, [l, m]) == Run(site, Run(site, db, l).0, m).0
  {
    assert [l, m][1..] == [m];
    RunsOne(site, Run(site, db, l).0, m);
  }

  lemma PendingPair(applied: map<string, Applied>, a: string, b: string)
    ensures Pending(applied, [a, b])
         == (if IsPending(applied, a) then [a] else []) + (if IsPending(applied, b) then [b] else [])
    ensures Pending(applied, [a]) == if IsPending(applied, a) then [a] else []
  {
    var keep := (f: string) => IsPending(applied, f);
    assert [a, b] == [a] + [b] && [a][1..] == [] && [b][1..] == [];
    FilterAppend([a], [b], keep);
    assert Filter([a], keep) == (if keep(a) then [a] else []) && Filter([b], keep) == if keep(b) then [b] else [];
  }

  /** One launch of two pending files: the first is applied and the second dies between body and row. */
  lemma DiesBetweenBodyAndRow(site: Site, content: string -> string, name: string)
    requires name != BOOTSTRAP && site.ownCommit(content(name))
    ensures var l := Launch([BOOTSTRAP, name], content, Ready, [Commits, DiesBetween]);
            var boot := Body(BOOTSTRAP, content(BOOTSTRAP));
            Run(site, EMPTY, l).0 == Db(
              map[BOOTSTRAP := Applied(site.hash(content(BOOTSTRAP)), Success)],
              [boot, boot, Body(name, content(name))], {})
  {
    var l := Launch([BOOTSTRAP, name], content, Ready, [Commits, DiesBetween]);
    var db1 := Bootstrapped(EMPTY, l);
    PendingPair(db1.applied, BOOTSTRAP, name);
    assert Pending(db1.applied, l.files) == [BOOTSTRAP, name];
    assert [BOOTSTRAP, name][1..] == [name] && l.outcomes[1..] == [DiesBetween];
    var db2 := CommitFile(site, db1, BOOTSTRAP, content(BOOTSTRAP));
    assert RunFile(site, db1, BOOTSTRAP, content(BOOTSTRAP), None, Commits) == db2;
    assert Run(site, EMPTY, l) == RunPending(site, db1, db1.applied, [BOOTSTRAP, name], l, l.outcomes, 0, 0);
    assert Run(site, EMPTY, l) == RunPending(site, db2, db1.applied, [name], l, [DiesBetween], 1, 0);
  }

  /** A launch that finds one file pending and applies it. */
  lemma AppliesOne(site: Site, db: Db, content: string -> string, files: seq<string>, name: string)
    requires BOOTSTRAP in files && Pending(db.applied, files) == [name] && Known(db.applied, name).None?
    ensures var m := Launch(files, content, Ready, [Commits]);
            Run(site, db, m) == (CommitFile(site, Bootstrapped(db, m), name, content(name)), AllApplied(1))
  {
    var m := Launch(files, content, Ready, [Commits]);
    var db1 := Bootstrapped(db, m);
    var db2 := CommitFile(site, db1, name, content(name));
    assert RunFile(site, db1, name, content(name), None, Commits) == db2;
    assert [name][1..] == [] && m.outcomes[1..] == [];
    assert RunPending(site, db1, db1.applied, [name], m, m.outcomes, 0, 0)
        == RunPending(site, db2, db1.applied, [], m, [], 1, 0) == (db2, AllApplied(1));
  }

  lemma TwoAmongFive(boot: Body, body: Body)
    requires boot.name != body.name
    ensures BodiesOf([boot, boot, body, boot, body], body.name) == [body.content, body.content]
  {
    BodiesAppend([], boot, body.name);
    BodiesAppend([boot], boot, body.name);
    BodiesAppend([boot, boot], body, body.name);
    BodiesAppend([boot, boot, body], boot, body.name);
    BodiesAppend([boot, boot, body, boot], body, body.name);
    assert [] + [boot] == [boot] && [boot] + [boot] == [boot, boot];
    assert [boot, boot] + [body] == [boot, boot, body] && [boot, boot, body] + [boot] == [boot, boot, body, boot];
    assert [boot, boot, body, boot] + [body] == [boot, boot, body, boot, body];
  }

  /** The next launch commits the file again, and nothing was recorded to have failed. */
  lemma OwnCommitTwice(site: Site, content: string -> string, name: string)
    requires name != BOOTSTRAP && site.ownCommit(content(name))
    ensures var l := Launch([BOOTSTRAP, name], content, Ready, [Commits, DiesBetween]);
            var m := Launch([BOOTSTRAP, name], content, Ready, [Commits]);
            var db := Runs(site, EMPTY, [l, m]);
            db.failures == {} && BodiesOf(db.bodies, name) == [content(name), content(name)]
  {
    var l := Launch([BOOTSTRAP, name], content, Ready, [Commits, DiesBetween]);
    var m := Launch([BOOTSTRAP, name], content, Ready, [Commits]);
    DiesBetweenBodyAndRow(site, content, name);
    RunsTwo(site, EMPTY, l, m);
    var db := Run(site, EMPTY, l).0;
    assert |site.hash(content(BOOTSTRAP))| == 64;
    PendingPair(db.applied, BOOTSTRAP, name);
    assert Pending(db.applied, m.files) == [name];
    AppliesOne(site, db, content, m.files, name);
    var boot, body := Body(BOOTSTRAP, content(BOOTSTRAP)), Body(name, content(name));
    assert Run(site, db, m).0.bodies == [boot, boot, body, boot, body];
    TwoAmongFive(boot, body);
  }

  /** The first launch of all executes the bootstrap file twice. */
  lemma BootstrapTwice(site: Site, content: string -> string)
    ensures var db := Runs(site, EMPTY, [Launch([BOOTSTRAP], content, Ready, [Commits])]);
            db.failures == {} && BodiesOf(db.bodies, BOOTSTRAP) == [content(BOOTSTRAP), content(BOOTSTRAP)]
  {
    var l := Launch([BOOTSTRAP], content, Ready, [Commits]);
    RunsOne(site, EMPTY, l);
    PendingPair(EMPTY.applied, BOOTSTRAP, BOOTSTRAP);
    AppliesOne(site, EMPTY, content, [BOOTSTRAP], BOOTSTRAP);
    var boot := Body(BOOTSTRAP, content(BOOTSTRAP));
    assert Run(site, EMPTY, l).0.bodies == [boot] + [boot];
    BodiesAppend([], boot, BOOTSTRAP);
    BodiesAppend([boot], boot, BOOTSTRAP);
    assert [] + [boot] == [boot];
  }

  /**
   For the files as shipped: a file without a recorded failure commits at most once and
   together with its row, over all runs, exactly when it has no COMMIT of its own and is not the
   bootstrap file.
   */
  lemma AtMostOnceExact(site: Site, content: string -> string, name: string)
    ensures AlwaysOnce(site, content, name) <==> name != BOOTSTRAP && !site.ownCommit(content(name))
  {
    if name == BOOTSTRAP {
      BootstrapTwice(site, content);
      var launches := [Launch([BOOTSTRAP], content, Ready, [Commits])];
      assert Shipped(launches, content);
      assert !OnceWithRow(site, Runs(site, EMPTY, launches), name);
    } else if site.ownCommit(content(name)) {
      OwnCommitTwice(site, content, name);
      var files := [BOOTSTRAP, name];
      var launches := [Launch(files, content, Ready, [Commits, DiesBetween]), Launch(files, content, Ready, [Commits])];
      assert Shipped(launches, content);
      assert !OnceWithRow(site, Runs(site, EMPTY, launches), name);
    } else {
      forall launches | Shipped(launches, content) && name !in Runs(site, EMPTY, launches).failures
        ensures OnceWithRow(site, Runs(site, EMPTY, launches), name)
      {
        AtMostOnce(site, launches, name);
      }
    }
  }

  // ---------------------------------------------------------------- what a run leaves pending

  /** A row first written by a failure: its checksum is empty and no statement replaces it. */
  predicate Stuck(applied: map<string, Applied>, name: string) {
    name in applied && applied[name].checksum == ""
  }

  /** In a run that reports no failure every pending file is recorded as successful. */
  lemma {:induction false} AllRecorded(site: Site, db: Db, before: map<string, Applied>, pending: seq<string>,
                                       launch: Launch, outcomes: seq<Outcome>, done: nat, name: string)
    requires RunPending(site, db, before, pending, launch, outcomes, done, 0).1.AllApplied?
    ensures var after := RunPending(site, db, before, pending, launch, outcomes, done, 0).0.applied;
            if name in pending
            then
              var checksum := if name in db.applied then db.applied[name].checksum else site.hash(launch.content(name));
              name in after && after[name] == Applied(checksum, Success)
            else (name in after <==> name in db.applied) && (name in after ==> after[name] == db.applied[name])
    decreases |pending|
  {
    if pending != [] && outcomes != [] {
      var first, o := pending[0], outcomes[0];
      var next := RunFile(site, db, first, launch.content(first), Known(before, first), o);
      if ChecksumPasses(site, launch.content(first), Known(before, first)) && o.Commits? {
        AllRecorded(site, next, before, pending[1..], launch, outcomes[1..], done + 1, name);
        assert name in pending <==> name == first || name in pending[1..];
      } else {
        FailuresShow(site, next, before, pending[1..], launch, outcomes[1..], done, 1);
      }
    }
  }

  lemma {:induction false} FailuresShow(site: Site, db: Db, before: map<string, Applied>, pending: seq<string>,
                                        launch: Launch, outcomes: seq<Outcome>, done: nat, failed: nat)
    requires failed > 0
    ensures !RunPending(site, db, before, pending, launch, outcomes, done, failed).1.AllApplied?
    decreases |pending|
  {
    if pending != [] && outcomes != [] {
      var first, o := pending[0], outcomes[0];
      var next := RunFile(site, db, first, launch.content(first), Known(before, first), o);
      FailuresShow(site, next, before, pending[1..], launch, outcomes[1..], done + 1, failed);
      FailuresShow(site, next, before, pending[1..], launch, outcomes[1..], done, failed + 1);
    }
  }

  lemma {:induction false} FilterAgrees(files: seq<string>, p: string -> bool, q: string -> bool)
    requires forall f :: f in files ==> p(f) == q(f)
    ensures Filter(files, p) == Filter(files, q)
  {
    if files != [] {
      FilterAgrees(files[1..], p, q);
    }
  }

  lemma PendingAfter(site: Site, db: Db, launch: Launch, name: string)
    requires Run(site, db, launch).1.AllApplied? || Run(site, db, launch).1.UpToDate?
    requires name in launch.files
    ensures IsPending(Run(site, db, launch).0.applied, name) <==> Stuck(db.applied, name)
  {
    var pending := Pending(db.applied, launch.files);
    assert name in pending <==> IsPending(db.applied, name);
    if pending != [] {
      AllRecorded(site, Bootstrapped(db, launch), db.applied, pending, launch, launch.outcomes, 0, name);
      assert |site.hash(launch.content(name))| == 64;
    }
  }

  /**
   After a fully successful run, the files still pending are exactly those whose row began
   as a failure; so nothing is pending exactly when there was no such row.
   */
  lemma PendingAfterSuccess(site: Site, db: Db, launch: Launch)
    requires Run(site, db, launch).1.AllApplied? || Run(site, db, launch).1.UpToDate?
    ensures Pending(Run(site, db, launch).0.applied, launch.files)
         == Filter(launch.files, (f: string) => Stuck(db.applied, f))
    ensures Pending(Run(site, db, launch).0.applied, launch.files) == [] <==>
            forall f :: f in launch.files ==> !Stuck(db.applied, f)
  {
    var after := Run(site, db, launch).0.applied;
    var q := (f: string) => Stuck(db.applied, f);
    forall f | f in launch.files ensures IsPending(after, f) == q(f) {
      PendingAfter(site, db, launch, f);
    }
    FilterAgrees(launch.files, (f: string) => IsPending(after, f), q);
    var left := Filter(launch.files, q);
    if left != [] {
      assert left[0] in left;
    }
  }

  lemma {:induction false} StuckThroughPending(
    site: Site, db: Db, before: map<string, Applied>, pending: seq<string>,
    launch: Launch, outcomes: seq<Outcome>, done: nat, failed: nat, name: string)
    requires Stuck(db.applied, name)
    ensures Stuck(RunPending(site, db, before, pending, launch, outcomes, done, failed).0.applied, name)
    decreases |pending|
  {
    if pending != [] && outcomes != [] {
      var first, o := pending[0], outcomes[0];
      var next := RunFile(site, db, first, launch.content(first), Known(before, first), o);
      StuckThroughPending(site, next, before, pending[1..], launch, outcomes[1..], done + 1, failed, name);
      StuckThroughPending(site, next, before, pending[1..], launch, outcomes[1..], done, failed + 1, name);
    }
  }

  /** A file whose first record was a failure stays pending after every later run, successful or not. */
  lemma {:induction false} StuckForever(site: Site, db: Db, launches: seq<Launch>, name: string)
    requires Stuck(db.applied, name)
    ensures Stuck(Runs(site, db, launches).applied, name) && IsPending(Runs(site, db, launches).applied, name)
    decreases |launches|
  {
    if launches != [] {
      var pending := Pending(db.applied, launches[0].files);
      var started := Bootstrapped(db, launches[0]);
      StuckThroughPending(site, started, db.applied, pending, launches[0], launches[0].outcomes, 0, 0, name);
      StuckForever(site, Run(site, db, launches[0]).0, launches[1..], name);
    }
  }

  // ---------------------------------------------------------------- edited files

  /** The contents differ at most for files that are not pending: edits after application. */
  ghost predicate OnlyAppliedEdited(db: Db, a: Launch, b: Launch) {
    && a.files == b.files && a.startup == b.startup && a.outcomes == b.outcomes
    && forall f :: IsPending(db.applied, f) ==> a.content(f) == b.content(f)
  }

  /** The same ledger, whatever bodies were executed. */
  predicate SameLedger(x: Db, y: Db) {
    x.applied == y.applied && x.failures == y.failures
  }

  lemma {:induction false} EditsUnseen(
    site: Site, x: Db, y: Db, start: Db, pending: seq<string>, a: Launch, b: Launch,
    outcomes: seq<Outcome>, done: nat, failed: nat)
    requires OnlyAppliedEdited(start, a, b) && forall f :: f in pending ==> IsPending(start.applied, f)
    requires SameLedger(x, y)
    ensures var r := RunPending(site, x, start.applied, pending, a, outcomes, done, failed);
            var t := RunPending(site, y, start.applied, pending, b, outcomes, done, failed);
            SameLedger(r.0, t.0) && r.1 == t.1 && (x == y ==> r == t)
    decreases |pending|
  {
    if pending != [] && outcomes != [] {
      var name, o := pending[0], outcomes[0];
      assert name in pending && a.content(name) == b.content(name);
      var x' := RunFile(site, x, name, a.content(name), Known(start.applied, name), o);
      var y' := RunFile(site, y, name, a.content(name), Known(start.applied, name), o);
      EditsUnseen(site, x', y', start, pending[1..], a, b, outcomes[1..], done + 1, failed);
      EditsUnseen(site, x', y', start, pending[1..], a, b, outcomes[1..], done, failed + 1);
    }
  }

  /**
   The checksum comparison only ever sees pending files, for which it has nothing to compare: it
   always passes. Editing an applied file changes neither the ledger nor the report of a run,
   and nothing at all unless it is the bootstrap file, which is executed as edited.
   */
  lemma EditsGoUnnoticed(site: Site, db: Db, a: Launch, b: Launch)
    requires OnlyAppliedEdited(db, a, b)
    ensures SameLedger(Run(site, db, a).0, Run(site, db, b).0) && Run(site, db, a).1 == Run(site, db, b).1
    ensures a.content(BOOTSTRAP) == b.content(BOOTSTRAP) ==> Run(site, db, a) == Run(site, db, b)
    ensures forall f :: f in Pending(db.applied, a.files) ==> ChecksumPasses(site, a.content(f), Known(db.applied, f))
  {
    var pending := Pending(db.applied, a.files);
    EditsUnseen(site, Bootstrapped(db, a), Bootstrapped(db, b), db, pending, a, b, a.outcomes, 0, 0);
  }
}
