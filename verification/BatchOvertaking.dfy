/**
 Checkpoint writes of earlier sessions that overtake the current one: when the decision table
 is still that of one pass.
 */
module BatchOvertaking {
  import opened Common
  import opened BatchWorker
  import opened BatchResume

  // ---------------------------------------------------------------- heartbeats that overtake

  /** Any two batches agree on the rows they both write. */
  ghost predicate BatchesAgree(job: Job) {
    forall i, j, k :: 0 <= i < j < |job.inputs| && k in BatchTable(job, i) && k in BatchTable(job, j) ==>
      BatchTable(job, i)[k] == BatchTable(job, j)[k]
  }

  /**
   A late checkpoint write carries the number of some batch that was started, or the number
   after one that was committed, in this session or before: it is a heartbeat, a metric
   callback, or the save that a stopped worker had sent after its last commit.
   */
  predicate Started(top: nat, i: nat, turns: seq<Turn>) {
    forall k, v :: 0 <= k < |turns| && v in turns[k].before + turns[k].after ==> v <= Max(top, i + k)
  }

  ghost predicate AllStarted(job: Job, db: Db, top: nat, sessions: seq<seq<Turn>>)
    decreases |sessions|
  {
    sessions != [] ==>
      && NoSkip(sessions[0]) && Started(top, db.checkpoint, sessions[0])
      && var r := Session(job, db, db.checkpoint, sessions[0]);
         AllStarted(job, r.0, Max(top, r.1), sessions[1..])
  }

  /** Under key `k` the table holds what a committed batch wrote, or what it held at the start. */
  ghost predicate HoldsAt(job: Job, start: Table, db: Db, k: RowKey) {
    && (forall b :: b in db.committed && b < |job.inputs| && k in BatchTable(job, b) ==>
          k in db.table && db.table[k] == BatchTable(job, b)[k])
    && ((forall b :: b in db.committed && b < |job.inputs| ==> k !in BatchTable(job, b)) ==>
          (k in db.table <==> k in start) && (k in start ==> db.table[k] == start[k]))
  }

  ghost predicate HoldsCommitted(job: Job, start: Table, db: Db) {
    forall k :: HoldsAt(job, start, db, k)
  }

  ghost predicate Within(job: Job, start: Table, db: Db, top: nat) {
    && top <= |job.inputs| && db.checkpoint <= top
    && (forall b :: 0 <= b < top ==> b in db.committed)
    && HoldsCommitted(job, start, db)
  }

  lemma CommitHolds(job: Job, start: Table, db: Db, i: nat, checkpoint: nat)
    requires BatchesAgree(job) && HoldsCommitted(job, start, db) && i < |job.inputs|
    ensures HoldsCommitted(job, start, Db(WriteAll(db.table, BatchRows(job, i)), checkpoint, db.committed + {i}))
  {
    var next := Db(WriteAll(db.table, BatchRows(job, i)), checkpoint, db.committed + {i});
    WriteAllOverlays(db.table, BatchRows(job, i));
    forall k ensures HoldsAt(job, start, next, k) {
      assert HoldsAt(job, start, db, k);
      assert i in next.committed;
      forall b | b in db.committed && b < |job.inputs| && k in BatchTable(job, b) && k in BatchTable(job, i)
        ensures BatchTable(job, b)[k] == BatchTable(job, i)[k]
      {
      }
    }
  }

  lemma SameTableHolds(job: Job, start: Table, db: Db, checkpoint: nat)
    requires HoldsCommitted(job, start, db)
    ensures HoldsCommitted(job, start, Db(db.table, checkpoint, db.committed))
  {
    forall k ensures HoldsAt(job, start, Db(db.table, checkpoint, db.committed), k) {
      assert HoldsAt(job, start, db, k);
    }
  }

  lemma TurnWithin(job: Job, start: Table, db: Db, top: nat, i: nat, t: Turn)
    requires BatchesAgree(job) && Within(job, start, db, top) && i <= top && i < |job.inputs| && !t.fate.Failed?
    requires forall v :: v in t.before + t.after ==> v <= top
    ensures Within(job, start, TurnResult(job, db, i, t), if Commits(t.fate) then Max(top, i + 1) else top)
  {
    TurnCheckpoint(job, db, i, t, top);
    var next := TurnResult(job, db, i, t);
    if Commits(t.fate) {
      CommitHolds(job, start, db, i, next.checkpoint);
    } else {
      SameTableHolds(job, start, db, next.checkpoint);
    }
  }

  lemma StartedTurn(top: nat, i: nat, turns: seq<Turn>)
    requires turns != [] && NoSkip(turns) && Started(top, i, turns) && i <= top
    ensures !turns[0].fate.Failed? && forall v :: v in turns[0].before + turns[0].after ==> v <= top
  {
  }

  lemma {:induction false} SessionWithin(job: Job, start: Table, db: Db, top: nat, i: nat, turns: seq<Turn>)
    requires BatchesAgree(job) && Within(job, start, db, top) && i <= top
    requires NoSkip(turns) && Started(top, i, turns)
    ensures var r := Session(job, db, i, turns); r.1 >= i && Within(job, start, r.0, Max(top, r.1))
    decreases |turns|
  {
    if i < |job.inputs| && turns != [] {
      var next := TurnResult(job, db, i, turns[0]);
      StartedTurn(top, i, turns);
      TurnWithin(job, start, db, top, i, turns[0]);
      if GoesOn(turns[0].fate) {
        SessionWithin(job, start, next, Max(top, i + 1), i + 1, turns[1..]);
      }
    }
  }

  lemma {:induction false} SessionsWithin(job: Job, start: Table, db: Db, top: nat, sessions: seq<seq<Turn>>)
    returns (reached: nat)
    requires BatchesAgree(job) && Within(job, start, db, top) && sessions != [] && AllStarted(job, db, top, sessions)
    ensures var r := Sessions(job, db, sessions); reached >= r.1 && Within(job, start, r.0, reached)
    decreases |sessions|
  {
    SessionWithin(job, start, db, top, db.checkpoint, sessions[0]);
    var r := Session(job, db, db.checkpoint, sessions[0]);
    reached := Max(top, r.1);
    if |sessions| > 1 {
      reached := SessionsWithin(job, start, r.0, reached, sessions[1..]);
    }
  }

  lemma AllCommittedIsOnePass(job: Job, start: Table, db: Db)
    requires HoldsCommitted(job, start, db) && forall b :: 0 <= b < |job.inputs| ==> b in db.committed
    ensures db.table == start + Rest(Tables(job), 0)
  {
    forall k
      ensures k in db.table <==> k in start + Rest(Tables(job), 0)
      ensures k in db.table ==> db.table[k] == (start + Rest(Tables(job), 0))[k]
    {
      assert HoldsAt(job, start, db, k);
      if k in Rest(Tables(job), 0) {
        var _ := RestAt(Tables(job), 0, k);
      } else {
        forall b | b in db.committed && b < |job.inputs| ensures k !in BatchTable(job, b) {
          if k in BatchTable(job, b) {
            RestContains(Tables(job), 0, b, k);
          }
        }
      }
    }
  }

  /** Late writes of earlier sessions may move the checkpoint forward: the table of one pass all the same. */
  lemma AgreeingBatchesResume(job: Job, start: Table, sessions: seq<seq<Turn>>)
    requires BatchesAgree(job) && AllStarted(job, Db(start, 0, {}), 0, sessions) && sessions != []
    ensures var (db, at) := Sessions(job, Db(start, 0, {}), sessions);
            && Honest(db)
            && (at == |job.inputs| ==> db.table == OnePassTable(job, start))
  {
    var db0 := Db(start, 0, {});
    assert HoldsCommitted(job, start, db0) by {
      forall k ensures HoldsAt(job, start, db0, k) {
      }
    }
    var reached := SessionsWithin(job, start, db0, 0, sessions);
    OnePassTableIsRest(job, start);
    var (db, at) := Sessions(job, db0, sessions);
    if at == |job.inputs| {
      AllCommittedIsOnePass(job, start, db);
    }
  }

  function OnePassTable(job: Job, start: Table): Table {
    Session(job, Db(start, 0, {}), 0, OnePass(job)).0.table
  }

  lemma OnePassTableIsRest(job: Job, start: Table)
    ensures OnePassTable(job, start) == start + Rest(Tables(job), 0)
  {
    OnePassWritesRest(job, Db(start, 0, {}), 0);
    assert OnePass(job)[0..] == OnePass(job);
  }

  // ---------------------------------------------------------------- batches that disagree

  function Dones(m: nat): seq<Turn> {
    seq(m, i => Turn(Done, [], []))
  }

  ghost predicate NoneWrites(job: Job, i: nat, m: nat, k: RowKey)
    requires i + m <= |job.inputs|
  {
    forall b :: i <= b < i + m ==> k !in BatchTable(job, b)
  }

  /** `m` batches that all succeed leave alone the rows none of them writes. */
  lemma {:induction false} DonesRun(job: Job, db: Db, i: nat, m: nat, tail: seq<Turn>, k: RowKey) returns (d: Db)
    requires i + m <= |job.inputs|
    ensures Session(job, db, i, Dones(m) + tail) == Session(job, d, i + m, tail)
    ensures d.checkpoint == if m > 0 then i + m else db.checkpoint
    ensures NoneWrites(job, i, m, k) ==>
              (k in d.table <==> k in db.table) && (k in d.table ==> d.table[k] == db.table[k])
    decreases m
  {
    if m == 0 {
      assert Dones(0) + tail == tail;
      d := db;
    } else {
      var turns := Dones(m) + tail;
      assert turns[0] == Turn(Done, [], []) && turns[1..] == Dones(m - 1) + tail;
      var next := TurnResult(job, db, i, turns[0]);
      WriteAllOverlays(db.table, BatchRows(job, i));
      assert NoneWrites(job, i, m, k) ==> k !in BatchTable(job, i) && NoneWrites(job, i + 1, m - 1, k);
      d := DonesRun(job, next, i + 1, m - 1, tail, k);
    }
  }

  lemma {:induction false} NotInRest(tables: seq<Table>, c: nat, k: RowKey)
    requires c <= |tables| && forall b :: c <= b < |tables| ==> k !in tables[b]
    ensures k !in Rest(tables, c)
    decreases |tables| - c
  {
    if c < |tables| {
      NotInRest(tables, c + 1, k);
    }
  }

  lemma {:induction false} LastWins(tables: seq<Table>, c: nat, last: nat, k: RowKey)
    requires c <= last < |tables| && k in tables[last] && forall b :: last < b < |tables| ==> k !in tables[b]
    ensures k in Rest(tables, c) && Rest(tables, c)[k] == tables[last][k]
    decreases last - c
  {
    if c < last {
      LastWins(tables, c + 1, last, k);
    } else {
      NotInRest(tables, last + 1, k);
    }
  }

  lemma {:induction false} LastWriter(job: Job, b: nat, k: RowKey) returns (last: nat)
    requires b < |job.inputs| && k in BatchTable(job, b)
    ensures b <= last < |job.inputs| && k in BatchTable(job, last)
    ensures NoneWrites(job, last + 1, |job.inputs| - last - 1, k)
    decreases |job.inputs| - b
  {
    if j :| b < j < |job.inputs| && k in BatchTable(job, j) {
      last := LastWriter(job, j, k);
    } else {
      last := b;
    }
  }

  /**
   A worker commits batch `last` and stops; a late heartbeat resets it to the earlier batch `x`,
   which it redoes; then the save of batch `last` lands, and the rest follows.
   */
  function Overtaken(job: Job, x: nat, last: nat): seq<seq<Turn>>
    requires x < last < |job.inputs|
  {
    [Dones(last) + [Turn(StoppedAfter, [], [x])], [Turn(Done, [], [last + 1])], Dones(|job.inputs| - last - 1)]
  }

  lemma OvertakenFirst(job: Job, db: Db, x: nat, last: nat) returns (d: Db)
    requires x < last < |job.inputs|
    ensures Session(job, db, 0, Dones(last) + [Turn(StoppedAfter, [], [x])]) == (d, last + 1) && d.checkpoint == x
  {
    var stop := [Turn(StoppedAfter, [], [x])];
    var d0 := DonesRun(job, db, 0, last, stop, RowKey("", None));
    d := TurnResult(job, d0, last, stop[0]);
  }

  lemma OvertakenSecond(job: Job, db: Db, x: nat, last: nat, k: RowKey) returns (d: Db)
    requires x < last < |job.inputs| && k in BatchTable(job, x)
    ensures Session(job, db, x, [Turn(Done, [], [last + 1])]) == (d, x + 1) && d.checkpoint == last + 1
    ensures k in d.table && d.table[k] == BatchTable(job, x)[k]
  {
    var t := Turn(Done, [], [last + 1]);
    d := TurnResult(job, db, x, t);
    WriteAllOverlays(db.table, BatchRows(job, x));
    assert [t][1..] == [];
  }

  lemma OvertakenThird(job: Job, db: Db, last: nat, k: RowKey) returns (d: Db)
    requires last < |job.inputs| && k in db.table && NoneWrites(job, last + 1, |job.inputs| - last - 1, k)
    ensures Session(job, db, last + 1, Dones(|job.inputs| - last - 1)) == (d, |job.inputs|)
    ensures k in d.table && d.table[k] == db.table[k]
  {
    var m := |job.inputs| - last - 1;
    d := DonesRun(job, db, last + 1, m, [], k);
    assert Dones(m) + [] == Dones(m);
  }

  lemma ThreeSessions(job: Job, db: Db, first: seq<Turn>, second: seq<Turn>, third: seq<Turn>)
    ensures var x := Session(job, db, db.checkpoint, first).0;
            var y := Session(job, x, x.checkpoint, second).0;
            Sessions(job, db, [first, second, third]) == Session(job, y, y.checkpoint, third)
  {
    assert [first, second, third][1..] == [second, third] && [second, third][1..] == [third];
    var x := Session(job, db, db.checkpoint, first).0;
    assert Sessions(job, db, [first, second, third]) == Sessions(job, x, [second, third]);
    var y := Session(job, x, x.checkpoint, second).0;
    assert Sessions(job, x, [second, third]) == Sessions(job, y, [third]);
  }

  lemma ThreeStarted(
    job: Job, db: Db, first: seq<Turn>, x: Db, i: nat, second: seq<Turn>, y: Db, j: nat, third: seq<Turn>)
    requires Session(job, db, db.checkpoint, first) == (x, i) && Session(job, x, x.checkpoint, second) == (y, j)
    requires NoSkip(first) && NoSkip(second) && NoSkip(third)
    requires Started(0, db.checkpoint, first) && Started(i, x.checkpoint, second)
    requires Started(Max(i, j), y.checkpoint, third)
    ensures AllStarted(job, db, 0, [first, second, third])
  {
    assert [first, second, third][1..] == [second, third] && [second, third][1..] == [third] && [third][1..] == [];
    assert AllStarted(job, y, Max(i, j), [third]);
    assert AllStarted(job, x, i, [second, third]);
  }

  lemma OvertakenWrites(x: nat, last: nat, m: nat)
    requires x < last
    ensures var first := Dones(last) + [Turn(StoppedAfter, [], [x])]; NoSkip(first) && Started(0, 0, first)
    ensures var second := [Turn(Done, [], [last + 1])]; NoSkip(second) && Started(last + 1, x, second)
    ensures NoSkip(Dones(m)) && forall top, i :: Started(top, i, Dones(m))
  {
  }

  /** After that, batch `x` has the last word on a row that batch `last` should have had. */
  lemma OvertakingRestoresOldRow(job: Job, start: Table, x: nat, last: nat, k: RowKey)
    requires x < last < |job.inputs| && k in BatchTable(job, x) && k in BatchTable(job, last)
    requires NoneWrites(job, last + 1, |job.inputs| - last - 1, k)
    ensures AllStarted(job, Db(start, 0, {}), 0, Overtaken(job, x, last))
    ensures var r := Sessions(job, Db(start, 0, {}), Overtaken(job, x, last));
            r.1 == |job.inputs| && k in r.0.table && r.0.table[k] == BatchTable(job, x)[k]
  {
    var db0 := Db(start, 0, {});
    var d1 := OvertakenFirst(job, db0, x, last);
    var d2 := OvertakenSecond(job, d1, x, last, k);
    var d3 := OvertakenThird(job, d2, last, k);
    OvertakenTogether(job, db0, x, last, d1, d2, d3);
  }

  lemma OvertakenTogether(job: Job, db: Db, x: nat, last: nat, d1: Db, d2: Db, d3: Db)
    requires x < last < |job.inputs| && db.checkpoint == 0 && d1.checkpoint == x && d2.checkpoint == last + 1
    requires Session(job, db, 0, Dones(last) + [Turn(StoppedAfter, [], [x])]) == (d1, last + 1)
    requires Session(job, d1, x, [Turn(Done, [], [last + 1])]) == (d2, x + 1)
    requires Session(job, d2, last + 1, Dones(|job.inputs| - last - 1)) == (d3, |job.inputs|)
    ensures AllStarted(job, db, 0, Overtaken(job, x, last))
    ensures Sessions(job, db, Overtaken(job, x, last)) == (d3, |job.inputs|)
  {
    var first, second := Dones(last) + [Turn(StoppedAfter, [], [x])], [Turn(Done, [], [last + 1])];
    var third := Dones(|job.inputs| - last - 1);
    ThreeSessions(job, db, first, second, third);
    OvertakenWrites(x, last, |job.inputs| - last - 1);
    ThreeStarted(job, db, first, d1, last + 1, second, d2, x + 1, third);
  }

  /** Every way of stopping and resuming that reaches the end leaves the table of one pass. */
  ghost predicate AlwaysOnePass(job: Job, start: Table) {
    forall sessions :: sessions != [] && AllStarted(job, Db(start, 0, {}), 0, sessions) ==>
      var (db, at) := Sessions(job, Db(start, 0, {}), sessions);
      at == |job.inputs| ==> db.table == OnePassTable(job, start)
  }

  /**
   With checkpoint writes of earlier sessions that overtake the current one, and so may move
   the checkpoint either way, the table of one pass is guaranteed exactly when any two batches
   agree on the rows they both write.
   */
  lemma ResumeDespiteOvertakingExact(job: Job, start: Table)
    ensures AlwaysOnePass(job, start) <==> BatchesAgree(job)
  {
    if BatchesAgree(job) {
      forall sessions | sessions != [] && AllStarted(job, Db(start, 0, {}), 0, sessions)
        ensures var (db, at) := Sessions(job, Db(start, 0, {}), sessions);
                at == |job.inputs| ==> db.table == OnePassTable(job, start)
      {
        AgreeingBatchesResume(job, start, sessions);
      }
    } else {
      var i, j, k :| 0 <= i < j < |job.inputs| && k in BatchTable(job, i) && k in BatchTable(job, j)
                     && BatchTable(job, i)[k] != BatchTable(job, j)[k];
      DisagreementShows(job, start, i, j, k);
    }
  }

  lemma DisagreementShows(job: Job, start: Table, i: nat, j: nat, k: RowKey)
    requires i < j < |job.inputs| && k in BatchTable(job, i) && k in BatchTable(job, j)
    requires BatchTable(job, i)[k] != BatchTable(job, j)[k]
    ensures !AlwaysOnePass(job, start)
  {
    var last := LastWriter(job, j, k);
    var x := if BatchTable(job, i)[k] != BatchTable(job, last)[k] then i else j;
    OvertakingRestoresOldRow(job, start, x, last, k);
    LastWins(Tables(job), 0, last, k);
    OnePassTableIsRest(job, start);
    var sessions := Overtaken(job, x, last);
    var r := Sessions(job, Db(start, 0, {}), sessions);
    assert r.0.table[k] != OnePassTable(job, start)[k];
    assert sessions != [] && r.1 == |job.inputs| && r.0.table != OnePassTable(job, start);
  }
}
