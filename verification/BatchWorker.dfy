/**
 The background worker's job: one batch per input, each batch's decisions written in one
 transaction, a checkpoint after each batch, heartbeats that write older checkpoints and may
 land late, and a worker that can stop anywhere and be started again.
 */
module BatchWorker {
  import opened Common

  datatype Scores = Scores(
    utilization: real, detection: real, quality: real, composite: real, tier: string, gap: bool)

  datatype Input = Input(index: string, sourcetype: Option<string>, precomputed: Option<Scores>)

  /** A decision of the agent; `narrative` stands for everything in it that is not a score. */
  datatype Decision = Decision(index: string, sourcetype: Option<string>, scores: Scores, narrative: string)

  /** A row of `agent_decisions`, within one tenant and snapshot. */
  datatype Row = Row(key: RowKey, scores: Scores, narrative: string)

  datatype RowKey = RowKey(index: string, sourcetype: Option<string>)

  // ---------------------------------------------------------------- rows

  /** An empty sourcetype reads as none, as in JavaScript. */
  function Present(sourcetype: Option<string>): Option<string> {
    if sourcetype == Some("") then None else sourcetype
  }

  function LookupText(index: string, sourcetype: Option<string>): string {
    match Present(sourcetype)
    case None => index
    case Some(s) => index + ":" + s
  }

  /** The scores the fast path computed under a lookup text; later inputs overwrite earlier ones. */
  function Precomputed(inputs: seq<Input>, text: string): Option<Scores> {
    if inputs == [] then None
    else
      var input := Last(inputs);
      if input.precomputed.Some? && LookupText(input.index, input.sourcetype) == text then input.precomputed
      else Precomputed(inputs[..|inputs| - 1], text)
  }

  /** Precomputed scores replace whatever scores the model gave. */
  function RowOf(inputs: seq<Input>, d: Decision): Row {
    var pre := Precomputed(inputs, LookupText(d.index, d.sourcetype));
    Row(RowKey(d.index, Present(d.sourcetype)), if pre.Some? then pre.value else d.scores, d.narrative)
  }

  function RowsOf(inputs: seq<Input>, decisions: seq<Decision>): seq<Row> {
    seq(|decisions|, k requires 0 <= k < |decisions| => RowOf(inputs, decisions[k]))
  }

  // ---------------------------------------------------------------- the decision table

  type Table = map<RowKey, Row>

  function WriteAll(t: Table, rows: seq<Row>): Table
    decreases |rows|
  {
    if rows == [] then t else WriteAll(t[rows[0].key := rows[0]], rows[1..])
  }

  /** What the rows leave in an empty table. */
  function Overlay(rows: seq<Row>): Table {
    WriteAll(map[], rows)
  }

  lemma {:induction false} WriteAllOverlays(t: Table, rows: seq<Row>)
    ensures WriteAll(t, rows) == t + Overlay(rows)
    decreases |rows|
  {
    if rows == [] {
      assert t + map[] == t;
    } else {
      var one: Table := map[rows[0].key := rows[0]];
      WriteAllOverlays(t[rows[0].key := rows[0]], rows[1..]);
      WriteAllOverlays(one, rows[1..]);
      assert map[][rows[0].key := rows[0]] == one;
      assert t[rows[0].key := rows[0]] + Overlay(rows[1..]) == t + (one + Overlay(rows[1..]));
    }
  }

  // ---------------------------------------------------------------- a job

  /** The inputs and the answer the agent gives for each of them. */
  datatype Job = Job(inputs: seq<Input>, answer: Input -> seq<Decision>)

  function BatchRows(job: Job, i: nat): seq<Row>
    requires i < |job.inputs|
  {
    RowsOf(job.inputs, job.answer(job.inputs[i]))
  }

  /**
   How one batch ends. `Done` commits and saves the checkpoint. A worker may stop before the
   commit or between the commit and the checkpoint. A timeout or a missing model ends the loop.
   Any other error is logged and the loop goes on, before or after the commit.
   */
  datatype Fate = Done | StoppedBefore | StoppedAfter | TimedOut | ModelMissing | Failed | FailedAfterCommit

  predicate Commits(f: Fate) {
    f in {Done, StoppedAfter, FailedAfterCommit}
  }

  predicate GoesOn(f: Fate) {
    f in {Done, Failed, FailedAfterCommit}
  }

  /** One batch: its fate, and the heartbeat checkpoints that land before and after its own. */
  datatype Turn = Turn(fate: Fate, before: seq<nat>, after: seq<nat>)

  /** The database: decisions and the persisted checkpoint, with the set of committed batches. */
  datatype Db = Db(table: Table, checkpoint: nat, committed: set<nat>)

  function Land(checkpoint: nat, beats: seq<nat>): nat {
    if beats == [] then checkpoint else Last(beats)
  }

  function TurnResult(job: Job, db: Db, i: nat, t: Turn): Db
    requires i < |job.inputs|
  {
    var table := if Commits(t.fate) then WriteAll(db.table, BatchRows(job, i)) else db.table;
    var committed := if Commits(t.fate) then db.committed + {i} else db.committed;
    var checkpoint := Land(db.checkpoint, t.before);
    Db(table, Land(if t.fate.Done? then i + 1 else checkpoint, t.after), committed)
  }

  datatype Status = Complete | Timeout | Unavailable | DecisionsFailed | NoDecisions | Interrupted

  /** One session from batch `i` on; without a further turn the worker has stopped. */
  function Session(job: Job, db: Db, i: nat, turns: seq<Turn>): (r: (Db, nat))
    decreases |turns|
  {
    if i >= |job.inputs| || turns == [] then (db, i)
    else
      var next := TurnResult(job, db, i, turns[0]);
      if GoesOn(turns[0].fate) then Session(job, next, i + 1, turns[1..])
      else (next, if turns[0].fate.StoppedAfter? then i + 1 else i)
  }

  /** Sessions one after another, each resuming at the persisted checkpoint. */
  function Sessions(job: Job, db: Db, sessions: seq<seq<Turn>>): (Db, nat)
    decreases |sessions|
  {
    if sessions == [] then (db, 0)
    else if |sessions| == 1 then Session(job, db, db.checkpoint, sessions[0])
    else Sessions(job, Session(job, db, db.checkpoint, sessions[0]).0, sessions[1..])
  }

  // ---------------------------------------------------------------- the worker's loop

  class DecisionStore {
    var rows: seq<Row>
    var checkpoint: nat

    ghost predicate Valid()
      reads this
    {
      KeysDistinct(rows)
    }

    /** The table, by key. */
    ghost function View(): Table
      reads this
    {
      Overlay(rows)
    }

    /** DELETE the row under the key, then INSERT ... ON CONFLICT. */
    method WriteDecision(row: Row)
      requires Valid()
      modifies this`rows
      ensures Valid() && View() == old(View())[row.key := row]
    {
      WithoutKept(rows, row.key);
      WithoutOverlay(rows, row.key);
      rows := Without(rows, row.key);
      OverlayAppend(rows, row);
      rows := Insert(rows, row);
    }

    method WriteBatch(batch: seq<Row>)
      requires Valid()
      modifies this`rows
      ensures Valid() && View() == WriteAll(old(View()), batch)
    {
      for k := 0 to |batch|
        invariant Valid() && WriteAll(View(), batch[k..]) == WriteAll(old(View()), batch)
      {
        WriteDecision(batch[k]);
        assert batch[k..][1..] == batch[k + 1..];
      }
    }

    /** One batch: late heartbeats land, the decisions are committed, the checkpoint is saved. */
    method RunBatch(job: Job, i: nat, turn: Turn, ghost committed: set<nat>)
      requires Valid() && i < |job.inputs|
      modifies this
      ensures Valid()
      ensures var r := TurnResult(job, Db(old(View()), old(checkpoint), committed), i, turn);
              View() == r.table && checkpoint == r.checkpoint
    {
      checkpoint := Land(checkpoint, turn.before);
      if Commits(turn.fate) {
        WriteBatch(BatchRows(job, i));
      }
      if turn.fate.Done? {
        checkpoint := i + 1;
      }
      checkpoint := Land(checkpoint, turn.after);
    }

    /** The loop over the batches, from the persisted checkpoint to the end or to a stop. */
    method ProcessJob(job: Job, turns: seq<Turn>, ghost committed: set<nat>) returns (status: Status)
      requires Valid()
      modifies this
      ensures Valid()
      ensures var r := Session(job, Db(old(View()), old(checkpoint), committed), old(checkpoint), turns);
              View() == r.0.table && checkpoint == r.0.checkpoint
      ensures status == SessionStatus(job, old(checkpoint), turns)
    {
      var i: nat, total: nat, failed: nat := checkpoint, 0, 0;
      var rest := turns;
      ghost var db := Db(View(), checkpoint, committed);
      ghost var result := Session(job, db, checkpoint, turns);
      ghost var report := SessionStatus(job, checkpoint, turns);
      while i < |job.inputs|
        invariant Valid() && db.table == View() && db.checkpoint == checkpoint
        invariant Session(job, db, i, rest) == result
        invariant StatusFrom(job, i, rest, total, failed) == report
        decreases |rest|
      {
        if rest == [] {
          return Interrupted;
        }
        var turn := rest[0];
        rest := rest[1..];
        RunBatch(job, i, turn, db.committed);
        db := TurnResult(job, db, i, turn);
        match turn.fate {
          case Done =>
            total := total + |BatchRows(job, i)|;
          case FailedAfterCommit =>
            total := total + |BatchRows(job, i)|;
            failed := failed + 1;
          case Failed =>
            failed := failed + 1;
          case TimedOut =>
            return Timeout;
          case ModelMissing =>
            return Unavailable;
          case StoppedBefore | StoppedAfter =>
            return Interrupted;
        }
        i := i + 1;
      }
      return if failed > 0 then DecisionsFailed else if total == 0 then NoDecisions else Complete;
    }
  }

  predicate KeysDistinct(rows: seq<Row>) {
    forall i, j :: 0 <= i < j < |rows| ==> rows[i].key != rows[j].key
  }

  /** DELETE ... WHERE sourcetype IS NOT DISTINCT FROM the given one. */
  function Without(rows: seq<Row>, key: RowKey): seq<Row> {
    if rows == [] then []
    else if rows[0].key == key then Without(rows[1..], key)
    else [rows[0]] + Without(rows[1..], key)
  }

  /** INSERT ... ON CONFLICT DO UPDATE: a NULL sourcetype never conflicts. */
  function Insert(rows: seq<Row>, row: Row): seq<Row> {
    if row.key.sourcetype.Some? && exists r :: r in rows && r.key == row.key
    then seq(|rows|, k requires 0 <= k < |rows| => if rows[k].key == row.key then row else rows[k])
    else rows + [row]
  }

  /** The insert alone keeps one row per key exactly when it has no NULL sourcetype to repeat. */
  lemma InsertNeedsDelete(rows: seq<Row>, row: Row)
    requires KeysDistinct(rows)
    ensures KeysDistinct(Insert(rows, row)) <==> row.key.sourcetype.Some? || forall r :: r in rows ==> r.key != row.key
  {
    var after := Insert(rows, row);
    if row.key.sourcetype.None? {
      if r :| r in rows && r.key == row.key {
        var k :| 0 <= k < |rows| && rows[k] == r;
        assert after[k].key == after[|rows|].key;
      }
    }
  }

  lemma OverlayCons(row: Row, rest: seq<Row>)
    ensures Overlay([row] + rest) == map[row.key := row] + Overlay(rest)
  {
    var one: Table := map[row.key := row];
    assert ([row] + rest)[1..] == rest;
    assert map[][row.key := row] == one;
    WriteAllOverlays(one, rest);
  }

  lemma {:induction false} WithoutKept(rows: seq<Row>, key: RowKey)
    requires KeysDistinct(rows)
    ensures KeysDistinct(Without(rows, key))
    ensures forall r :: r in Without(rows, key) ==> r in rows && r.key != key
  {
    if rows != [] {
      var row, rest := rows[0], Without(rows[1..], key);
      WithoutKept(rows[1..], key);
      forall i | 0 <= i < |rest| ensures rest[i].key != row.key {
        assert rest[i] in rows[1..];
      }
    }
  }

  lemma {:induction false} WithoutOverlay(rows: seq<Row>, key: RowKey)
    ensures Overlay(Without(rows, key)) == Overlay(rows) - {key}
  {
    if rows != [] {
      var row, rest := rows[0], Without(rows[1..], key);
      WithoutOverlay(rows[1..], key);
      assert rows == [row] + rows[1..];
      OverlayCons(row, rows[1..]);
      OverlayCons(row, rest);
    }
  }

  lemma OverlayAppend(rows: seq<Row>, row: Row)
    ensures Overlay(rows + [row]) == Overlay(rows)[row.key := row]
  {
    WriteAllAppend(map[], rows, [row]);
  }

  lemma {:induction false} WriteAllAppend(t: Table, a: seq<Row>, b: seq<Row>)
    ensures WriteAll(t, a + b) == WriteAll(WriteAll(t, a), b)
    decreases |a|
  {
    if a == [] {
      assert a + b == b;
    } else {
      assert (a + b)[1..] == a[1..] + b;
      WriteAllAppend(t[a[0].key := a[0]], a[1..], b);
    }
  }

  /** How a session that is not cut short reports itself. */
  function SessionStatus(job: Job, start: nat, turns: seq<Turn>): Status {
    StatusFrom(job, start, turns, 0, 0)
  }

  function StatusFrom(job: Job, i: nat, turns: seq<Turn>, total: nat, failed: nat): Status
    decreases |turns|
  {
    if i >= |job.inputs| then
      if failed > 0 then DecisionsFailed else if total == 0 then NoDecisions else Complete
    else if turns == [] then Interrupted
    else
      var n := |BatchRows(job, i)|;
      match turns[0].fate
      case Done => StatusFrom(job, i + 1, turns[1..], total + n, failed)
      case FailedAfterCommit => StatusFrom(job, i + 1, turns[1..], total + n, failed + 1)
      case Failed => StatusFrom(job, i + 1, turns[1..], total, failed + 1)
      case TimedOut => Timeout
      case ModelMissing => Unavailable
      case StoppedBefore | StoppedAfter => Interrupted
  }
}
