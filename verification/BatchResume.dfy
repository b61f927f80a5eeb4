/**
 What stopping and resuming the worker's job preserves while late heartbeats do not overtake:
 the decision table of one pass and an honest checkpoint.
 */
module BatchResume {
  import opened Common
  import opened BatchWorker

  // ---------------------------------------------------------------- tables laid over each other

  /** What batch `b` leaves in an empty table. */
  function BatchTable(job: Job, b: nat): Table
    requires b < |job.inputs|
  {
    Overlay(BatchRows(job, b))
  }

  function Tables(job: Job): (r: seq<Table>)
    ensures |r| == |job.inputs| && forall b :: 0 <= b < |r| ==> r[b] == BatchTable(job, b)
  {
    seq(|job.inputs|, b requires 0 <= b < |job.inputs| => BatchTable(job, b))
  }

  /** Tables `i`, `i + 1`, ... laid over each other, later ones winning. */
  function Rest(tables: seq<Table>, i: nat): Table
    requires i <= |tables|
    decreases |tables| - i
  {
    if i == |tables| then map[] else tables[i] + Rest(tables, i + 1)
  }

  lemma {:induction false} RestContains(tables: seq<Table>, c: nat, i: nat, k: RowKey)
    requires c <= i < |tables| && k in tables[i]
    ensures k in Rest(tables, c)
    decreases i - c
  {
    if c < i {
      RestContains(tables, c + 1, i, k);
    }
  }

  lemma {:induction false} RestAt(tables: seq<Table>, c: nat, k: RowKey) returns (b: nat)
    requires c <= |tables| && k in Rest(tables, c)
    ensures c <= b < |tables| && k in tables[b] && Rest(tables, c)[k] == tables[b][k]
    decreases |tables| - c
  {
    if k in Rest(tables, c + 1) {
      b := RestAt(tables, c + 1, k);
    } else {
      b := c;
    }
  }

  // ---------------------------------------------------------------- stopping and resuming

  predicate Honest(db: Db) {
    forall b :: 0 <= b < db.checkpoint ==> b in db.committed
  }

  function Max(a: nat, b: nat): nat {
    if a < b then b else a
  }

  /** No batch is skipped by an error that is logged before the commit. */
  predicate NoSkip(turns: seq<Turn>) {
    forall t :: t in turns ==> !t.fate.Failed?
  }

  /** Heartbeats may be late but do not overtake the batch being worked on. */
  predicate Calm(i: nat, turns: seq<Turn>) {
    forall k, v :: 0 <= k < |turns| && v in turns[k].before + turns[k].after ==> v <= i + k
  }

  ghost predicate AllCalm(job: Job, db: Db, sessions: seq<seq<Turn>>)
    decreases |sessions|
  {
    sessions != [] ==>
      && NoSkip(sessions[0]) && Calm(db.checkpoint, sessions[0])
      && AllCalm(job, Session(job, db, db.checkpoint, sessions[0]).0, sessions[1..])
  }

  /**
   Batch `i` comes next: everything before it is committed, and redoing the batches from any
   earlier one on gives what one pass would have given.
   */
  ghost predicate OnTrack(job: Job, start: Table, db: Db, i: nat) {
    && i <= |job.inputs| && db.checkpoint <= i
    && (forall b :: 0 <= b < i ==> b in db.committed)
    && forall c :: 0 <= c <= i ==> db.table + Rest(Tables(job), c) == start + Rest(Tables(job), 0)
  }

  /** Writing batch `i` is absorbed by redoing any range of batches that contains it. */
  lemma Absorbed(job: Job, t: Table, c: nat, i: nat)
    requires c <= i < |job.inputs|
    ensures WriteAll(t, BatchRows(job, i)) + Rest(Tables(job), c) == t + Rest(Tables(job), c)
  {
    WriteAllOverlays(t, BatchRows(job, i));
    forall k | k in Tables(job)[i] ensures k in Rest(Tables(job), c) {
      RestContains(Tables(job), c, i, k);
    }
  }

  lemma Continued(job: Job, t: Table, i: nat)
    requires i < |job.inputs|
    ensures WriteAll(t, BatchRows(job, i)) + Rest(Tables(job), i + 1) == t + Rest(Tables(job), i)
  {
    WriteAllOverlays(t, BatchRows(job, i));
  }

  /** Late heartbeats do not carry the checkpoint past `top`, nor its own save past the batch. */
  lemma TurnCheckpoint(job: Job, db: Db, i: nat, t: Turn, top: nat)
    requires i < |job.inputs| && i <= top && db.checkpoint <= top
    requires forall v :: v in t.before + t.after ==> v <= top
    ensures TurnResult(job, db, i, t).checkpoint <= if t.fate.Done? then Max(top, i + 1) else top
  {
    if t.before != [] {
      assert Last(t.before) in t.before + t.after;
    }
    if t.after != [] {
      assert Last(t.after) in t.before + t.after;
    }
  }

  lemma TurnOnTrack(job: Job, start: Table, db: Db, i: nat, t: Turn)
    requires OnTrack(job, start, db, i) && i < |job.inputs| && !t.fate.Failed?
    requires forall v :: v in t.before + t.after ==> v <= i
    ensures OnTrack(job, start, TurnResult(job, db, i, t), if Commits(t.fate) then i + 1 else i)
  {
    var next := TurnResult(job, db, i, t);
    TurnCheckpoint(job, db, i, t, i);
    if Commits(t.fate) {
      forall c | 0 <= c <= i + 1 ensures next.table + Rest(Tables(job), c) == start + Rest(Tables(job), 0) {
        if c <= i {
          Absorbed(job, db.table, c, i);
        } else {
          Continued(job, db.table, i);
        }
      }
    }
  }

  lemma {:induction false} SessionOnTrack(job: Job, start: Table, db: Db, i: nat, turns: seq<Turn>)
    requires OnTrack(job, start, db, i) && NoSkip(turns) && Calm(i, turns)
    ensures var r := Session(job, db, i, turns); OnTrack(job, start, r.0, r.1)
    decreases |turns|
  {
    if i < |job.inputs| && turns != [] {
      TurnOnTrack(job, start, db, i, turns[0]);
      if GoesOn(turns[0].fate) {
        SessionOnTrack(job, start, TurnResult(job, db, i, turns[0]), i + 1, turns[1..]);
      }
    }
  }

  lemma {:induction false} SessionsOnTrack(job: Job, start: Table, db: Db, i: nat, sessions: seq<seq<Turn>>)
    requires OnTrack(job, start, db, i) && sessions != [] && AllCalm(job, db, sessions)
    ensures var r := Sessions(job, db, sessions); OnTrack(job, start, r.0, r.1)
    decreases |sessions|
  {
    SessionOnTrack(job, start, db, db.checkpoint, sessions[0]);
    if |sessions| > 1 {
      var r := Session(job, db, db.checkpoint, sessions[0]);
      SessionsOnTrack(job, start, r.0, r.1, sessions[1..]);
    }
  }

  /** One pass in which every batch succeeds. */
  function OnePass(job: Job): seq<Turn> {
    seq(|job.inputs|, i => Turn(Done, [], []))
  }

  lemma {:induction false} OnePassWritesRest(job: Job, db: Db, i: nat)
    requires i <= |job.inputs|
    ensures Session(job, db, i, OnePass(job)[i..]).0.table == db.table + Rest(Tables(job), i)
    decreases |job.inputs| - i
  {
    var turns := OnePass(job)[i..];
    if i == |job.inputs| {
      assert db.table + map[] == db.table;
    } else {
      assert turns[0] == Turn(Done, [], []) && turns[1..] == OnePass(job)[i + 1..];
      var next := TurnResult(job, db, i, turns[0]);
      OnePassWritesRest(job, next, i + 1);
      Continued(job, db.table, i);
    }
  }

  /**
   Any number of sessions, each stopping anywhere and resuming at the persisted checkpoint:
   the checkpoint never passes the committed batches, and a session that reaches the end
   leaves the decision table of one uninterrupted pass.
   */
  lemma ResumeAnywhere(job: Job, start: Table, sessions: seq<seq<Turn>>)
    requires AllCalm(job, Db(start, 0, {}), sessions)
    ensures var (db, at) := Sessions(job, Db(start, 0, {}), sessions);
            && db.checkpoint <= at <= |job.inputs| && (forall b :: 0 <= b < at ==> b in db.committed)
            && (at == |job.inputs| ==> db.table == Session(job, Db(start, 0, {}), 0, OnePass(job)).0.table)
  {
    var db0 := Db(start, 0, {});
    assert OnTrack(job, start, db0, 0);
    OnePassWritesRest(job, db0, 0);
    assert OnePass(job)[0..] == OnePass(job);
    if sessions != [] {
      SessionsOnTrack(job, start, db0, 0, sessions);
      var (db, at) := Sessions(job, db0, sessions);
      if at == |job.inputs| {
        assert db.table + Rest(Tables(job), at) == start + Rest(Tables(job), 0);
        assert db.table + map[] == db.table;
      }
    } else {
      assert Sessions(job, db0, sessions) == (db0, 0);
      assert |job.inputs| == 0 ==> Rest(Tables(job), 0) == map[] && start + map[] == start;
    }
  }
}
