/**
 What one pass of the worker's job leaves in the decision table: whose narrative, whose
 scores, and how the session reports itself.
 */
module BatchScores {
  import opened Common
  import opened Joining
  import opened BatchWorker
  import opened BatchResume

  // ---------------------------------------------------------------- the lookup of scores

  predicate ScoredAs(inputs: seq<Input>, k: nat, text: string) {
    k < |inputs| && inputs[k].precomputed.Some? && LookupText(inputs[k].index, inputs[k].sourcetype) == text
  }

  /** Input `k` is the last one with scores under that lookup text. */
  ghost predicate LastScored(inputs: seq<Input>, k: nat, text: string) {
    ScoredAs(inputs, k, text) && forall j :: k < j < |inputs| ==> !ScoredAs(inputs, j, text)
  }

  lemma {:induction false} PrecomputedFound(inputs: seq<Input>, text: string, k: nat)
    requires LastScored(inputs, k, text)
    ensures Precomputed(inputs, text) == inputs[k].precomputed
  {
    var front := inputs[..|inputs| - 1];
    if k < |front| {
      assert !ScoredAs(inputs, |front|, text);
      forall j | k < j < |front| ensures !ScoredAs(front, j, text) {
        assert !ScoredAs(inputs, j, text);
      }
      PrecomputedFound(front, text, k);
    }
  }

  lemma {:induction false} PrecomputedSource(inputs: seq<Input>, text: string) returns (k: nat)
    requires Precomputed(inputs, text).Some?
    ensures LastScored(inputs, k, text)
  {
    var n := |inputs| - 1;
    if ScoredAs(inputs, n, text) {
      k := n;
    } else {
      k := PrecomputedSource(inputs[..n], text);
      forall j | k < j < |inputs| ensures !ScoredAs(inputs, j, text) {
        assert j < n ==> !ScoredAs(inputs[..n], j, text);
      }
    }
  }

  lemma {:induction false} LastScoredExists(inputs: seq<Input>, text: string, n: nat) returns (k: nat)
    requires ScoredAs(inputs, n, text)
    ensures LastScored(inputs, k, text)
    decreases |inputs| - n
  {
    k := n;
    if j :| n < j < |inputs| && ScoredAs(inputs, j, text) {
      k := LastScoredExists(inputs, text, j);
    }
  }

  /** The scores found are those of the last input with scores and that text, if there is one. */
  lemma PrecomputedExact(inputs: seq<Input>, text: string)
    ensures forall s :: Precomputed(inputs, text) == Some(s) <==>
              exists k: nat :: LastScored(inputs, k, text) && inputs[k].precomputed == Some(s)
    ensures Precomputed(inputs, text) == None <==> forall k :: 0 <= k < |inputs| ==> !ScoredAs(inputs, k, text)
  {
    if Precomputed(inputs, text).Some? {
      var k := PrecomputedSource(inputs, text);
      PrecomputedFound(inputs, text, k);
    }
    forall k: nat | LastScored(inputs, k, text) ensures Precomputed(inputs, text) == inputs[k].precomputed {
      PrecomputedFound(inputs, text, k);
    }
    if n :| 0 <= n < |inputs| && ScoredAs(inputs, n, text) {
      var k := LastScoredExists(inputs, text, n);
    }
  }

  predicate NoColon(s: string) {
    ':' !in s
  }

  predicate Nameless(sourcetype: Option<string>) {
    sourcetype == None || sourcetype == Some("")
  }

  /** Equal, an empty sourcetype being as good as none. */
  predicate SameSourcetype(a: Option<string>, b: Option<string>) {
    a == b || (Nameless(a) && Nameless(b))
  }

  lemma LookupTextCut(index: string, sourcetype: Option<string>)
    requires NoColon(index)
    ensures var w := LookupText(index, sourcetype);
            && Split(w, ':')[0] == index
            && w[|index|..] == if Present(sourcetype).Some? then ":" + Present(sourcetype).value else ""
  {
    var s := Present(sourcetype);
    SplitPiece(index, if s.Some? then s.value else "", ':');
    if s.Some? {
      assert LookupText(index, sourcetype) == index + [':'] + s.value;
    }
  }

  /** Without a colon in an index, lookup texts tell index and sourcetype apart. */
  lemma LookupTextExact(index: string, sourcetype: Option<string>, index': string, sourcetype': Option<string>)
    requires NoColon(index) && NoColon(index')
    ensures LookupText(index, sourcetype) == LookupText(index', sourcetype')
       <==> index == index' && SameSourcetype(sourcetype, sourcetype')
  {
    LookupTextCut(index, sourcetype);
    LookupTextCut(index', sourcetype');
    var s, s' := Present(sourcetype), Present(sourcetype');
    assert s.Some? ==> (":" + s.value)[1..] == s.value;
    assert s'.Some? ==> (":" + s'.value)[1..] == s'.value;
  }

  /** Any sourcetype can also be spelled inside an index. */
  lemma LookupTextCollides(index: string, sourcetype: string)
    requires sourcetype != ""
    ensures LookupText(index + ":" + sourcetype, None) == LookupText(index, Some(sourcetype))
    ensures index + ":" + sourcetype != index
  {
    assert |index + ":" + sourcetype| > |index|;
  }

  // ---------------------------------------------------------------- the table of one pass

  /** What the agent answers for batch `i` and all later ones. */
  function AnswersFrom(job: Job, i: nat): seq<Decision>
    requires i <= |job.inputs|
    decreases |job.inputs| - i
  {
    if i == |job.inputs| then [] else job.answer(job.inputs[i]) + AnswersFrom(job, i + 1)
  }

  function KeyOf(d: Decision): RowKey {
    RowKey(d.index, if Nameless(d.sourcetype) then None else d.sourcetype)
  }

  /** Decision `n` is the last one about its index and sourcetype. */
  ghost predicate LastAbout(ds: seq<Decision>, n: nat) {
    n < |ds| && forall m :: n < m < |ds| ==> KeyOf(ds[m]) != KeyOf(ds[n])
  }

  lemma {:induction false} WriteAllMissing(t: Table, rows: seq<Row>, key: RowKey)
    requires forall r :: r in rows ==> r.key != key
    ensures key in WriteAll(t, rows) <==> key in t
    ensures key in t ==> WriteAll(t, rows)[key] == t[key]
    decreases |rows|
  {
    if rows != [] {
      WriteAllMissing(t[rows[0].key := rows[0]], rows[1..], key);
    }
  }

  lemma WriteAllLast(t: Table, rows: seq<Row>, n: nat)
    requires n < |rows| && forall m :: n < m < |rows| ==> rows[m].key != rows[n].key
    ensures rows[n].key in WriteAll(t, rows) && WriteAll(t, rows)[rows[n].key] == rows[n]
  {
    var front, row, back := rows[..n], rows[n], rows[n + 1..];
    assert rows == front + ([row] + back);
    WriteAllAppend(t, front, [row] + back);
    var before := WriteAll(t, front);
    assert ([row] + back)[1..] == back;
    WriteAllMissing(before[row.key := row], back, row.key);
  }

  lemma RowsAppend(inputs: seq<Input>, a: seq<Decision>, b: seq<Decision>)
    ensures RowsOf(inputs, a + b) == RowsOf(inputs, a) + RowsOf(inputs, b)
  {
  }

  lemma {:induction false} OnePassFrom(job: Job, db: Db, i: nat)
    requires i <= |job.inputs|
    requires i == |job.inputs| ==> db.checkpoint == i
    ensures var after := Session(job, db, i, OnePass(job)[i..]).0;
            && after.table == WriteAll(db.table, RowsOf(job.inputs, AnswersFrom(job, i)))
            && after.checkpoint == |job.inputs|
    decreases |job.inputs| - i
  {
    var turns := OnePass(job)[i..];
    if i < |job.inputs| {
      assert turns[0] == Turn(Done, [], []) && turns[1..] == OnePass(job)[i + 1..];
      var next := TurnResult(job, db, i, turns[0]);
      OnePassFrom(job, next, i + 1);
      RowsAppend(job.inputs, job.answer(job.inputs[i]), AnswersFrom(job, i + 1));
      WriteAllAppend(db.table, BatchRows(job, i), RowsOf(job.inputs, AnswersFrom(job, i + 1)));
    }
  }

  function PassResult(job: Job, start: Table): Db {
    Session(job, Db(start, 0, {}), 0, OnePass(job)).0
  }

  lemma PassWrites(job: Job, start: Table)
    ensures PassResult(job, start).table == WriteAll(start, RowsOf(job.inputs, AnswersFrom(job, 0)))
    ensures PassResult(job, start).checkpoint == |job.inputs|
  {
    assert OnePass(job)[0..] == OnePass(job);
    OnePassFrom(job, Db(start, 0, {}), 0);
  }

  /**
   After one pass a row holds the last decision about its index and sourcetype: that decision's
   narrative, and the scores of the last input with scores under its lookup text, or the
   decision's own when no input has scores there.
   */
  lemma OnePassStores(job: Job, start: Table, n: nat)
    requires LastAbout(AnswersFrom(job, 0), n)
    ensures var d, table := AnswersFrom(job, 0)[n], PassResult(job, start).table;
            KeyOf(d) in table && table[KeyOf(d)].key == KeyOf(d) && table[KeyOf(d)].narrative == d.narrative
    ensures forall k: nat :: LastScored(job.inputs, k, TextOf(AnswersFrom(job, 0)[n])) ==>
              Some(StoredScores(job, start, n)) == job.inputs[k].precomputed
    ensures (forall k :: 0 <= k < |job.inputs| ==> !ScoredAs(job.inputs, k, TextOf(AnswersFrom(job, 0)[n]))) ==>
              StoredScores(job, start, n) == AnswersFrom(job, 0)[n].scores
  {
    PassStoresRow(job, start, n);
    PrecomputedExact(job.inputs, TextOf(AnswersFrom(job, 0)[n]));
  }

  function TextOf(d: Decision): string {
    LookupText(d.index, d.sourcetype)
  }

  lemma PassStoresRow(job: Job, start: Table, n: nat)
    requires LastAbout(AnswersFrom(job, 0), n)
    ensures var d, table := AnswersFrom(job, 0)[n], PassResult(job, start).table;
            KeyOf(d) in table && table[KeyOf(d)] == RowOf(job.inputs, d)
  {
    var ds := AnswersFrom(job, 0);
    var rows := RowsOf(job.inputs, ds);
    PassWrites(job, start);
    forall m | n < m < |rows| ensures rows[m].key != rows[n].key {
      assert KeyOf(ds[m]) != KeyOf(ds[n]);
    }
    WriteAllLast(start, rows, n);
  }

  ghost function StoredScores(job: Job, start: Table, n: nat): Scores
    requires LastAbout(AnswersFrom(job, 0), n)
  {
    PassStoresRow(job, start, n);
    PassResult(job, start).table[KeyOf(AnswersFrom(job, 0)[n])].scores
  }

  /** Rows that no decision is about keep what they held, and the checkpoint is the last batch. */
  lemma OnePassKeepsRest(job: Job, start: Table, key: RowKey)
    requires forall n :: 0 <= n < |AnswersFrom(job, 0)| ==> KeyOf(AnswersFrom(job, 0)[n]) != key
    ensures key in PassResult(job, start).table <==> key in start
    ensures key in start ==> PassResult(job, start).table[key] == start[key]
    ensures PassResult(job, start).checkpoint == |job.inputs|
  {
    PassWrites(job, start);
    WriteAllMissing(start, RowsOf(job.inputs, AnswersFrom(job, 0)), key);
  }

  predicate SameThing(input: Input, d: Decision) {
    input.index == d.index && SameSourcetype(input.sourcetype, d.sourcetype)
  }

  /**
   With colon-free indexes, the scores stored for a thing are those of the last input with
   scores that has its index and sourcetype.
   */
  lemma StoredScoresAreTheInputs(job: Job, start: Table, n: nat, k: nat)
    requires LastAbout(AnswersFrom(job, 0), n) && NoColon(AnswersFrom(job, 0)[n].index)
    requires forall j :: 0 <= j < |job.inputs| ==> NoColon(job.inputs[j].index)
    requires k < |job.inputs| && job.inputs[k].precomputed.Some? && SameThing(job.inputs[k], AnswersFrom(job, 0)[n])
    requires forall j :: k < j < |job.inputs| && job.inputs[j].precomputed.Some? ==>
               !SameThing(job.inputs[j], AnswersFrom(job, 0)[n])
    ensures var key, table := KeyOf(AnswersFrom(job, 0)[n]), PassResult(job, start).table;
            key in table && Some(table[key].scores) == job.inputs[k].precomputed
  {
    var d := AnswersFrom(job, 0)[n];
    var text := TextOf(d);
    forall j | 0 <= j < |job.inputs|
      ensures ScoredAs(job.inputs, j, text) <==> job.inputs[j].precomputed.Some? && SameThing(job.inputs[j], d)
    {
      LookupTextExact(job.inputs[j].index, job.inputs[j].sourcetype, d.index, d.sourcetype);
    }
    assert LastScored(job.inputs, k, text);
    OnePassStores(job, start, n);
  }

  // ---------------------------------------------------------------- what any session leaves

  /** The rows of the batches committed among the first `n` turns, in order. */
  function CommittedRows(job: Job, start: nat, turns: seq<Turn>, n: nat): seq<Row>
    requires n <= |turns| && (n > 0 ==> start + n <= |job.inputs|)
  {
    if n == 0 then []
    else
      CommittedRows(job, start, turns, n - 1)
      + if turns[n - 1].fate in {Done, StoppedAfter, FailedAfterCommit}
        then RowsOf(job.inputs, job.answer(job.inputs[start + n - 1]))
        else []
  }

  /** The checkpoints written during the first `n` turns, in order: heartbeats and the worker's own. */
  function CheckpointsWritten(start: nat, turns: seq<Turn>, n: nat): seq<nat>
    requires n <= |turns|
  {
    if n == 0 then []
    else
      CheckpointsWritten(start, turns, n - 1)
      + (turns[n - 1].before + (if turns[n - 1].fate == Done then [start + n] else []) + turns[n - 1].after)
  }

  /** Exactly the first `n` turns are taken: the loop is over or the last of them ended it. */
  ghost predicate Takes(job: Job, start: nat, turns: seq<Turn>, n: nat) {
    && n <= |turns| && (n > 0 ==> start + n <= |job.inputs|)
    && (forall j :: 0 <= j < n - 1 ==> turns[j].fate in {Done, Failed, FailedAfterCommit})
    && (|| n == |turns| || start + n >= |job.inputs|
        || (n > 0 && turns[n - 1].fate !in {Done, Failed, FailedAfterCommit}))
  }

  lemma TakesNext(job: Job, start: nat, turns: seq<Turn>, n: nat)
    requires Takes(job, start, turns, n) && n > 1
    ensures GoesOn(turns[0].fate) && Takes(job, start + 1, turns[1..], n - 1)
  {
    assert turns[0].fate in {Done, Failed, FailedAfterCommit};
    forall j | 0 <= j < n - 2 ensures turns[1..][j].fate in {Done, Failed, FailedAfterCommit} {
      assert turns[1..][j] == turns[j + 1];
    }
  }

  lemma {:induction false} CommittedFirst(job: Job, start: nat, turns: seq<Turn>, n: nat)
    requires 0 < n <= |turns| && start + n <= |job.inputs|
    ensures CommittedRows(job, start, turns, n) ==
            CommittedRows(job, start, turns, 1) + CommittedRows(job, start + 1, turns[1..], n - 1)
  {
    if n > 1 {
      CommittedFirst(job, start, turns, n - 1);
    }
  }

  lemma {:induction false} WrittenFirst(start: nat, turns: seq<Turn>, n: nat)
    requires 0 < n <= |turns|
    ensures CheckpointsWritten(start, turns, n) ==
            CheckpointsWritten(start, turns, 1) + CheckpointsWritten(start + 1, turns[1..], n - 1)
  {
    if n > 1 {
      WrittenFirst(start, turns, n - 1);
    }
  }

  lemma LandAppend(checkpoint: nat, a: seq<nat>, b: seq<nat>)
    ensures Land(checkpoint, a + b) == Land(Land(checkpoint, a), b)
  {
    if b == [] {
      assert a + b == a;
    }
  }

  lemma TurnExact(job: Job, db: Db, start: nat, turns: seq<Turn>)
    requires turns != [] && start < |job.inputs|
    ensures var next := TurnResult(job, db, start, turns[0]);
            && next.table == WriteAll(db.table, CommittedRows(job, start, turns, 1))
            && next.checkpoint == Land(db.checkpoint, CheckpointsWritten(start, turns, 1))
  {
    var t := turns[0];
    var own: seq<nat> := if t.fate == Done then [start + 1] else [];
    assert CommittedRows(job, start, turns, 0) == [] && CheckpointsWritten(start, turns, 0) == [];
    assert CommittedRows(job, start, turns, 1) == if Commits(t.fate) then BatchRows(job, start) else [];
    assert CheckpointsWritten(start, turns, 1) == t.before + own + t.after;
    LandAppend(db.checkpoint, t.before + own, t.after);
    LandAppend(db.checkpoint, t.before, own);
  }

  /**
   A session writes the rows of its committed batches in their order, and the checkpoint it
   leaves is the last one written by anybody.
   */
  lemma {:induction false} SessionExact(job: Job, db: Db, start: nat, turns: seq<Turn>, n: nat)
    requires Takes(job, start, turns, n)
    ensures var after := Session(job, db, start, turns).0;
            && after.table == WriteAll(db.table, CommittedRows(job, start, turns, n))
            && after.checkpoint == (if CheckpointsWritten(start, turns, n) == [] then db.checkpoint
                                    else Last(CheckpointsWritten(start, turns, n)))
    decreases n
  {
    if n > 0 {
      TurnExact(job, db, start, turns);
      if n > 1 {
        var next := TurnResult(job, db, start, turns[0]);
        TakesNext(job, start, turns, n);
        SessionExact(job, next, start + 1, turns[1..], n - 1);
        CommittedFirst(job, start, turns, n);
        WrittenFirst(start, turns, n);
        var tail := turns[1..];
        WriteAllAppend(db.table, CommittedRows(job, start, turns, 1), CommittedRows(job, start + 1, tail, n - 1));
        LandAppend(db.checkpoint, CheckpointsWritten(start, turns, 1), CheckpointsWritten(start + 1, tail, n - 1));
      } else if GoesOn(turns[0].fate) {
        assert turns[1..] == [] || start + 1 >= |job.inputs|;
      }
    }
  }

  // ---------------------------------------------------------------- scores of the model

  predicate SameButScores(d: Decision, e: Decision) {
    d == e.(scores := d.scores)
  }

  /** Both agents answer alike up to scores, and only about things with precomputed scores. */
  ghost predicate DifferInScores(a: Job, b: Job) {
    && a.inputs == b.inputs
    && forall i :: 0 <= i < |a.inputs| ==>
         var x, y := a.answer(a.inputs[i]), b.answer(b.inputs[i]);
         && |x| == |y|
         && forall k :: 0 <= k < |x| ==>
              SameButScores(x[k], y[k]) && Precomputed(a.inputs, LookupText(x[k].index, x[k].sourcetype)).Some?
  }

  lemma {:induction false} SessionIgnoresModelScores(a: Job, b: Job, db: Db, i: nat, turns: seq<Turn>)
    requires DifferInScores(a, b)
    ensures Session(a, db, i, turns) == Session(b, db, i, turns)
    decreases |turns|
  {
    if i < |a.inputs| && turns != [] {
      assert BatchRows(a, i) == BatchRows(b, i);
      SessionIgnoresModelScores(a, b, TurnResult(a, db, i, turns[0]), i + 1, turns[1..]);
    }
  }

  /** Scores the model emits never reach the table where precomputed scores exist. */
  lemma {:induction false} ModelScoresNeverStored(a: Job, b: Job, db: Db, sessions: seq<seq<Turn>>)
    requires DifferInScores(a, b)
    ensures Sessions(a, db, sessions) == Sessions(b, db, sessions)
    decreases |sessions|
  {
    if sessions != [] {
      SessionIgnoresModelScores(a, b, db, db.checkpoint, sessions[0]);
      ModelScoresNeverStored(a, b, Session(a, db, db.checkpoint, sessions[0]).0, sessions[1..]);
    }
  }

  // ---------------------------------------------------------------- what a session reports

  /** The loop goes past its first `k` turns and no further. */
  ghost predicate StopsAt(job: Job, start: nat, turns: seq<Turn>, k: nat) {
    && k <= |turns| && (k > 0 ==> start + k <= |job.inputs|)
    && (forall j :: 0 <= j < k ==> GoesOn(turns[j].fate))
    && (start + k >= |job.inputs| || k == |turns| || !GoesOn(turns[k].fate))
  }

  lemma {:induction false} StopExists(job: Job, start: nat, turns: seq<Turn>) returns (k: nat)
    ensures StopsAt(job, start, turns, k)
    decreases |turns|
  {
    k := 0;
    if start < |job.inputs| && turns != [] && GoesOn(turns[0].fate) {
      k := StopExists(job, start + 1, turns[1..]);
      k := k + 1;
    }
  }

  ghost predicate AnyFailed(turns: seq<Turn>, k: nat)
    requires k <= |turns|
  {
    exists j :: 0 <= j < k && turns[j].fate in {Failed, FailedAfterCommit}
  }

  ghost predicate AnyAnswer(job: Job, start: nat, k: nat) {
    exists b :: start <= b < start + k && b < |job.inputs| && job.answer(job.inputs[b]) != []
  }

  /**
   A session reports how its first stopping batch ended. When it ran through, it reports a
   failure if some batch failed, else whether any of its batches answered anything.
   */
  lemma StatusExact(job: Job, start: nat, turns: seq<Turn>, k: nat)
    requires StopsAt(job, start, turns, k)
    ensures SessionStatus(job, start, turns) ==
      if start + k >= |job.inputs| then
        if AnyFailed(turns, k) then DecisionsFailed
        else if AnyAnswer(job, start, k) then Complete
        else NoDecisions
      else if k == |turns| then Interrupted
      else if turns[k].fate.TimedOut? then Timeout
      else if turns[k].fate.ModelMissing? then Unavailable
      else Interrupted
  {
    StatusFromStop(job, start, turns, k, 0, 0);
    if start + k >= |job.inputs| && !AnyFailed(turns, k) {
      assert forall j :: 0 <= j < k ==> turns[j].fate.Done?;
    }
  }

  lemma {:induction false} StatusFromStop(job: Job, i: nat, turns: seq<Turn>, k: nat, total: nat, failed: nat)
    requires StopsAt(job, i, turns, k)
    ensures StatusFrom(job, i, turns, total, failed) ==
      if i + k >= |job.inputs| then
        if failed > 0 || AnyFailed(turns, k) then DecisionsFailed
        else if total > 0 || AnyAnswer(job, i, k) then Complete
        else NoDecisions
      else if k == |turns| then Interrupted
      else if turns[k].fate.TimedOut? then Timeout
      else if turns[k].fate.ModelMissing? then Unavailable
      else Interrupted
    decreases k
  {
    if k > 0 {
      var n := |BatchRows(job, i)|;
      var tail := turns[1..];
      assert GoesOn(turns[0].fate);
      assert StopsAt(job, i + 1, tail, k - 1) by {
        assert forall j :: 0 <= j < k - 1 ==> tail[j] == turns[j + 1];
      }
      var total' := if turns[0].fate.Failed? then total else total + n;
      var failed' := if turns[0].fate.Done? then failed else failed + 1;
      StatusFromStop(job, i + 1, tail, k - 1, total', failed');
      AnyShift(job, i, turns, k);
    }
  }

  lemma AnyShift(job: Job, i: nat, turns: seq<Turn>, k: nat)
    requires 0 < k <= |turns| && i < |job.inputs|
    ensures AnyFailed(turns, k) <==> turns[0].fate in {Failed, FailedAfterCommit} || AnyFailed(turns[1..], k - 1)
    ensures AnyAnswer(job, i, k) <==> job.answer(job.inputs[i]) != [] || AnyAnswer(job, i + 1, k - 1)
  {
    if j :| 0 <= j < k - 1 && turns[1..][j].fate in {Failed, FailedAfterCommit} {
      assert turns[j + 1] == turns[1..][j];
    }
    if j :| 0 < j < k && turns[j].fate in {Failed, FailedAfterCommit} {
      assert turns[1..][j - 1] == turns[j];
    }
  }
}
