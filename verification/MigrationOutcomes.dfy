/**
 What one launch of the migration runner does to every pending file, whatever happened to the
 files before it, and what it reports.
 */
module MigrationOutcomes {
  import opened Common
  import opened MigrationRunner

  // ---------------------------------------------------------------- what happens to one file

  /** File `k` has its turn: the process did not die at an earlier one. */
  ghost predicate Reached(pending: seq<string>, outcomes: seq<Outcome>, k: nat) {
    && k < |pending| && k < |outcomes|
    && forall j :: 0 <= j < k ==> outcomes[j] !in {DiesBefore, DiesBetween, DiesAfter}
  }

  /** Whether the file's SQL is in the database afterwards. */
  predicate LeavesBody(site: Site, content: string, o: Outcome) {
    match o
    case Commits | CommitsUnseen(_) | DiesAfter => true
    case RollsBack(_) | DiesBefore => false
    case DiesBetween | RowFails(_) => site.ownCommit(content)
  }

  /** The status the outcome gives the file's row, if it writes one. */
  function LeavesStatus(o: Outcome): Option<Status> {
    match o
    case Commits | DiesAfter => Some(Success)
    case CommitsUnseen(recorded) => Some(if recorded then Failed else Success)
    case RollsBack(recorded) => if recorded then Some(Failed) else None
    case RowFails(recorded) => if recorded then Some(Failed) else None
    case DiesBefore | DiesBetween => None
  }

  /** The file's part of the database after its turn: its SQL, its row and its failures. */
  ghost predicate Effect(site: Site, before: Db, after: Db, name: string, content: string, o: Outcome) {
    && BodiesOf(after.bodies, name) ==
         BodiesOf(before.bodies, name) + (if LeavesBody(site, content, o) then [content] else [])
    && RowEffect(site, before, after, name, content, o)
  }

  /**
   A row keeps the checksum it has; a new one takes the content's, or an empty one when it only
   records a failure.
   */
  ghost predicate RowEffect(site: Site, before: Db, after: Db, name: string, content: string, o: Outcome) {
    && (LeavesStatus(o).None? ==> SameRow(before, after, name))
    && (LeavesStatus(o).Some? ==>
          && name in after.applied && after.applied[name].status == LeavesStatus(o).value
          && after.applied[name].checksum ==
               (if name in before.applied then before.applied[name].checksum
                else if o.Commits? || o.DiesAfter? || o.CommitsUnseen? then site.hash(content)
                else ""))
    && (name in after.failures <==> name in before.failures || LeavesStatus(o) == Some(Failed))
  }

  ghost predicate SameRow(before: Db, after: Db, name: string) {
    && (name in after.applied <==> name in before.applied)
    && (name in after.applied ==> after.applied[name] == before.applied[name])
  }

  ghost predicate AllPending(before: map<string, Applied>, pending: seq<string>) {
    forall f :: f in pending ==> IsPending(before, f)
  }

  lemma FileTurn(site: Site, db: Db, name: string, content: string, expected: Option<string>, o: Outcome)
    requires ChecksumPasses(site, content, expected)
    ensures Effect(site, db, RunFile(site, db, name, content, expected, o), name, content, o)
  {
    FileTurnBody(site, db, name, content, expected, o);
    FileTurnRow(site, db, name, content, expected, o);
  }

  lemma FileTurnBody(site: Site, db: Db, name: string, content: string, expected: Option<string>, o: Outcome)
    requires ChecksumPasses(site, content, expected)
    ensures BodiesOf(RunFile(site, db, name, content, expected, o).bodies, name) ==
            BodiesOf(db.bodies, name) + (if LeavesBody(site, content, o) then [content] else [])
  {
    var after := RunFile(site, db, name, content, expected, o);
    assert after.bodies == if LeavesBody(site, content, o) then db.bodies + [Body(name, content)] else db.bodies;
    BodiesAppend(db.bodies, Body(name, content), name);
    assert BodiesOf(db.bodies, name) + [] == BodiesOf(db.bodies, name);
  }

  lemma FileTurnRow(site: Site, db: Db, name: string, content: string, expected: Option<string>, o: Outcome)
    requires ChecksumPasses(site, content, expected)
    ensures RowEffect(site, db, RunFile(site, db, name, content, expected, o), name, content, o)
  {
  }

  /** How a run over pending files begins: the first file has its turn, then the rest go on. */
  lemma FirstThenRest(site: Site, db: Db, before: map<string, Applied>, pending: seq<string>,
                      launch: Launch, outcomes: seq<Outcome>, done: nat, failed: nat)
    requires AllPending(before, pending) && pending != [] && outcomes != []
    ensures var file, o := pending[0], outcomes[0];
            var next := RunFile(site, db, file, launch.content(file), Known(before, file), o);
            && ChecksumPasses(site, launch.content(file), Known(before, file))
            && RunPending(site, db, before, pending, launch, outcomes, done, failed) ==
                 if Dies(o) then (next, Died)
                 else if o.Commits? then
                   RunPending(site, next, before, pending[1..], launch, outcomes[1..], done + 1, failed)
                 else RunPending(site, next, before, pending[1..], launch, outcomes[1..], done, failed + 1)
  {
    assert pending[0] in pending;
  }

  lemma EffectThenUntouched(site: Site, a: Db, b: Db, c: Db, name: string, content: string, o: Outcome)
    requires Effect(site, a, b, name, content, o) && Untouched(b, c, name)
    ensures Effect(site, a, c, name, content, o)
  {
  }

  lemma UntouchedThenEffect(site: Site, a: Db, b: Db, c: Db, name: string, content: string, o: Outcome)
    requires Untouched(a, b, name) && Effect(site, b, c, name, content, o)
    ensures Effect(site, a, c, name, content, o)
  {
  }

  // ---------------------------------------------------------------- the whole list

  lemma ReachedNext(pending: seq<string>, outcomes: seq<Outcome>, k: nat)
    requires Reached(pending, outcomes, k) && k > 0
    ensures !Dies(outcomes[0]) && Reached(pending[1..], outcomes[1..], k - 1)
  {
  }

  lemma ReachedBack(pending: seq<string>, outcomes: seq<Outcome>, k: nat)
    requires pending != [] && outcomes != [] && !Dies(outcomes[0]) && Reached(pending[1..], outcomes[1..], k)
    ensures Reached(pending, outcomes, k + 1)
  {
    forall j | 0 <= j < k + 1 ensures outcomes[j] !in {DiesBefore, DiesBetween, DiesAfter} {
      assert j > 0 ==> outcomes[1..][j - 1] !in {DiesBefore, DiesBetween, DiesAfter};
    }
  }

  /** A file that has no turn is left as it was. */
  lemma {:induction false} OthersUntouched(
    site: Site, db: Db, before: map<string, Applied>, pending: seq<string>,
    launch: Launch, outcomes: seq<Outcome>, done: nat, failed: nat, name: string)
    requires AllPending(before, pending)
    requires forall k: nat :: Reached(pending, outcomes, k) ==> pending[k] != name
    ensures Untouched(db, RunPending(site, db, before, pending, launch, outcomes, done, failed).0, name)
    decreases |pending|
  {
    if pending != [] && outcomes != [] {
      var file, o := pending[0], outcomes[0];
      assert Reached(pending, outcomes, 0);
      FirstThenRest(site, db, before, pending, launch, outcomes, done, failed);
      OtherFileUntouched(site, db, file, launch.content(file), Known(before, file), o, name);
      if !Dies(o) {
        forall k: nat | Reached(pending[1..], outcomes[1..], k) ensures pending[1..][k] != name {
          ReachedBack(pending, outcomes, k);
        }
        var next := RunFile(site, db, file, launch.content(file), Known(before, file), o);
        OthersUntouched(site, next, before, pending[1..], launch, outcomes[1..], done + 1, failed, name);
        OthersUntouched(site, next, before, pending[1..], launch, outcomes[1..], done, failed + 1, name);
      }
    }
  }

  /** Every file that has a turn gets its own outcome, whatever failed before or after it. */
  lemma {:induction false} EveryFileHasItsOutcome(
    site: Site, db: Db, before: map<string, Applied>, pending: seq<string>,
    launch: Launch, outcomes: seq<Outcome>, done: nat, failed: nat, k: nat)
    requires AllPending(before, pending) && Distinct(pending) && Reached(pending, outcomes, k)
    ensures Effect(site, db, RunPending(site, db, before, pending, launch, outcomes, done, failed).0,
                   pending[k], launch.content(pending[k]), outcomes[k])
    decreases |pending|
  {
    var name, content := pending[k], launch.content(pending[k]);
    var file, o := pending[0], outcomes[0];
    var next := RunFile(site, db, file, launch.content(file), Known(before, file), o);
    FirstThenRest(site, db, before, pending, launch, outcomes, done, failed);
    if k == 0 {
      FileTurn(site, db, name, content, Known(before, name), o);
      if !Dies(o) {
        var done', failed' := if o.Commits? then done + 1 else done, if o.Commits? then failed else failed + 1;
        OthersUntouched(site, next, before, pending[1..], launch, outcomes[1..], done', failed', name);
        var after := RunPending(site, next, before, pending[1..], launch, outcomes[1..], done', failed').0;
        EffectThenUntouched(site, db, next, after, name, content, o);
      }
    } else {
      ReachedNext(pending, outcomes, k);
      OtherFileUntouched(site, db, file, launch.content(file), Known(before, file), o, name);
      var done', failed' := if o.Commits? then done + 1 else done, if o.Commits? then failed else failed + 1;
      EveryFileHasItsOutcome(site, next, before, pending[1..], launch, outcomes[1..], done', failed', k - 1);
      var after := RunPending(site, next, before, pending[1..], launch, outcomes[1..], done', failed').0;
      UntouchedThenEffect(site, db, next, after, name, content, outcomes[k]);
    }
  }

  // ---------------------------------------------------------------- the report

  /** The places, among the first `n`, of the outcomes that count as applied. */
  function Committing(outcomes: seq<Outcome>, n: nat): set<nat>
    requires n <= |outcomes|
  {
    set k: nat | k < n && outcomes[k].Commits?
  }

  function Failing(outcomes: seq<Outcome>, n: nat): set<nat>
    requires n <= |outcomes|
  {
    set k: nat | k < n && !outcomes[k].Commits?
  }

  lemma CountOneMore(outcomes: seq<Outcome>, n: nat)
    requires n < |outcomes|
    ensures |Committing(outcomes, n + 1)| == |Committing(outcomes, n)| + if outcomes[n].Commits? then 1 else 0
    ensures |Failing(outcomes, n + 1)| == |Failing(outcomes, n)| + if outcomes[n].Commits? then 0 else 1
  {
    assert Committing(outcomes, n + 1) == Committing(outcomes, n) + if outcomes[n].Commits? then {n} else {};
    assert Failing(outcomes, n + 1) == Failing(outcomes, n) + if outcomes[n].Commits? then {} else {n};
  }

  ghost predicate NobodyDies(pending: seq<string>, outcomes: seq<Outcome>) {
    && |pending| <= |outcomes|
    && forall j :: 0 <= j < |pending| ==> outcomes[j] !in {DiesBefore, DiesBetween, DiesAfter}
  }

  /** The run over the files from `n` on, with the outcomes before `n` counted. */
  lemma {:induction false} ReportFrom(
    site: Site, db: Db, before: map<string, Applied>, pending: seq<string>,
    launch: Launch, outcomes: seq<Outcome>, n: nat)
    requires AllPending(before, pending) && n <= |pending| && n <= |outcomes|
    requires forall j :: 0 <= j < n ==> !Dies(outcomes[j])
    ensures var r := RunPending(site, db, before, pending[n..], launch, outcomes[n..],
                                |Committing(outcomes, n)|, |Failing(outcomes, n)|).1;
            && (NobodyDies(pending, outcomes) ==>
                  r == if Failing(outcomes, |pending|) != {} then SomeFailed(|Failing(outcomes, |pending|)|)
                       else AllApplied(|Committing(outcomes, |pending|)|))
            && (!NobodyDies(pending, outcomes) ==> r == Died)
    decreases |pending| - n
  {
    if n < |pending| && n < |outcomes| {
      var name, o := pending[n], outcomes[n];
      FirstThenRest(site, db, before, pending[n..], launch, outcomes[n..],
                    |Committing(outcomes, n)|, |Failing(outcomes, n)|);
      assert pending[n..][1..] == pending[n + 1..] && outcomes[n..][1..] == outcomes[n + 1..];
      CountOneMore(outcomes, n);
      if !Dies(o) {
        var next := RunFile(site, db, name, launch.content(name), Known(before, name), o);
        ReportFrom(site, next, before, pending, launch, outcomes, n + 1);
      }
    }
  }

  // ---------------------------------------------------------------- a launch

  /** Which files a launch takes for pending: all but those with a successful row and a checksum. */
  lemma PendingExact(applied: map<string, Applied>, files: seq<string>, f: string)
    ensures f in Pending(applied, files) <==>
              && f in files
              && !(f in applied && applied[f].status == Success && applied[f].checksum != "")
  {
  }

  /**
   A launch that gets to its pending files: each file that has a turn ends as its own outcome
   says, a file that has none is left alone.
   */
  lemma LaunchExact(site: Site, db: Db, launch: Launch)
    requires BOOTSTRAP in launch.files && launch.startup.Ready? && Distinct(launch.files)
    ensures var pending := Pending(db.applied, launch.files);
            && (forall k: nat :: Reached(pending, launch.outcomes, k) ==>
                  Effect(site, Bootstrapped(db, launch), Run(site, db, launch).0,
                         pending[k], launch.content(pending[k]), launch.outcomes[k]))
            && (forall f :: (forall k: nat :: Reached(pending, launch.outcomes, k) ==> pending[k] != f) ==>
                  Untouched(Bootstrapped(db, launch), Run(site, db, launch).0, f))
  {
    var pending := Pending(db.applied, launch.files);
    var start := Bootstrapped(db, launch);
    FilterDistinct(launch.files, (f: string) => IsPending(db.applied, f));
    if pending != [] {
      forall k: nat | Reached(pending, launch.outcomes, k)
        ensures Effect(site, start, Run(site, db, launch).0, pending[k], launch.content(pending[k]), launch.outcomes[k])
      {
        EveryFileHasItsOutcome(site, start, db.applied, pending, launch, launch.outcomes, 0, 0, k);
      }
      forall f | forall k: nat :: Reached(pending, launch.outcomes, k) ==> pending[k] != f
        ensures Untouched(start, Run(site, db, launch).0, f)
      {
        OthersUntouched(site, start, db.applied, pending, launch, launch.outcomes, 0, 0, f);
      }
    }
  }

  /**
   What a launch reports: that nothing was pending, that the process died, how many of all its
   pending files failed, or, when none did, how many were applied.
   */
  lemma ReportExact(site: Site, db: Db, launch: Launch)
    requires BOOTSTRAP in launch.files && launch.startup.Ready?
    ensures var pending := Pending(db.applied, launch.files);
            Run(site, db, launch).1 ==
              if pending == [] then UpToDate
              else if !NobodyDies(pending, launch.outcomes) then Died
              else if Failing(launch.outcomes, |pending|) != {} then
                SomeFailed(|Failing(launch.outcomes, |pending|)|)
              else AllApplied(|pending|)
  {
    var pending, outcomes := Pending(db.applied, launch.files), launch.outcomes;
    if pending != [] {
      assert Committing(outcomes, 0) == {} && Failing(outcomes, 0) == {};
      assert pending[0..] == pending && outcomes[0..] == outcomes;
      ReportFrom(site, Bootstrapped(db, launch), db.applied, pending, launch, outcomes, 0);
      if NobodyDies(pending, outcomes) && Failing(outcomes, |pending|) == {} {
        AllCommitting(outcomes, |pending|);
      }
    }
  }

  lemma {:induction false} AllCommitting(outcomes: seq<Outcome>, n: nat)
    requires n <= |outcomes| && Failing(outcomes, n) == {}
    ensures |Committing(outcomes, n)| == n
  {
    if n > 0 {
      assert n - 1 !in Failing(outcomes, n);
      assert Failing(outcomes, n - 1) <= Failing(outcomes, n);
      CountOneMore(outcomes, n - 1);
      AllCommitting(outcomes, n - 1);
    }
  }

  /** A launch that does not get to its pending files executes at most the bootstrap file. */
  lemma NotStartedExact(site: Site, db: Db, launch: Launch)
    ensures Run(site, db, launch).1 == NotStarted <==> BOOTSTRAP !in launch.files || launch.startup != Ready
    ensures Run(site, db, launch).1 == NotStarted ==>
            var boot := "000_bootstrap.sql";
            var runs := boot in launch.files && launch.startup != BootstrapFails(false);
            Run(site, db, launch).0 == Db(
              db.applied, db.bodies + (if runs then [Body(boot, launch.content(boot))] else []), db.failures)
  {
    assert db.bodies + [] == db.bodies;
  }
}
