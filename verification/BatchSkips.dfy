/**
 The two other ways out of the worker's loop: batches skipped by a logged error, which a later
 checkpoint may vouch for, and sessions that are reported as having produced nothing.
 */
module BatchSkips {
  import opened Common
  import opened BatchWorker
  import opened BatchResume

  // ---------------------------------------------------------------- batches skipped by a logged error

  function Beats(db: Db, values: seq<nat>): seq<Db> {
    seq(|values|, k requires 0 <= k < |values| => db.(checkpoint := values[k]))
  }

  function AfterCommit(job: Job, db: Db, i: nat, t: Turn): Db
    requires i < |job.inputs|
  {
    if Commits(t.fate) then Db(WriteAll(db.table, BatchRows(job, i)), db.checkpoint, db.committed + {i}) else db
  }

  function AfterSave(db: Db, i: nat, t: Turn): Db {
    if t.fate.Done? then db.(checkpoint := i + 1) else db
  }

  /** The databases one turn passes through: one for every write. */
  function TurnMoments(job: Job, db: Db, i: nat, t: Turn): seq<Db>
    requires i < |job.inputs|
  {
    var begun := db.(checkpoint := Land(db.checkpoint, t.before));
    var written := AfterCommit(job, begun, i, t);
    var saved := AfterSave(written, i, t);
    Beats(db, t.before) + [written, saved] + Beats(saved, t.after)
  }

  function Moments(job: Job, db: Db, i: nat, turns: seq<Turn>): seq<Db>
    decreases |turns|
  {
    if i >= |job.inputs| || turns == [] then [db]
    else
      TurnMoments(job, db, i, turns[0])
      + if GoesOn(turns[0].fate) then Moments(job, TurnResult(job, db, i, turns[0]), i + 1, turns[1..]) else []
  }

  lemma TurnMomentsEnd(job: Job, db: Db, i: nat, t: Turn)
    requires i < |job.inputs|
    ensures var moments := TurnMoments(job, db, i, t);
            moments != [] && moments[|moments| - 1] == TurnResult(job, db, i, t)
  {
  }

  lemma LastMomentGoesOn(job: Job, db: Db, i: nat, turns: seq<Turn>, rest: seq<Db>)
    requires i < |job.inputs| && turns != [] && GoesOn(turns[0].fate)
    requires rest == Moments(job, TurnResult(job, db, i, turns[0]), i + 1, turns[1..]) && rest != []
    ensures Moments(job, db, i, turns) != [] && Last(Moments(job, db, i, turns)) == Last(rest)
  {
    LastOfSum(TurnMoments(job, db, i, turns[0]), rest);
  }

  /** The last of them is the database the session leaves. */
  lemma {:induction false} MomentsEndInSession(job: Job, db: Db, i: nat, turns: seq<Turn>)
    ensures Moments(job, db, i, turns) != [] && Last(Moments(job, db, i, turns)) == Session(job, db, i, turns).0
    decreases |turns|
  {
    if i < |job.inputs| && turns != [] {
      if GoesOn(turns[0].fate) {
        var next := TurnResult(job, db, i, turns[0]);
        MomentsEndInSession(job, next, i + 1, turns[1..]);
        LastMomentGoesOn(job, db, i, turns, Moments(job, next, i + 1, turns[1..]));
      }
    }
  }

  lemma LastOfSum(a: seq<Db>, b: seq<Db>)
    requires b != []
    ensures a + b != [] && Last(a + b) == Last(b)
  {
  }

  ghost predicate AllHonest(dbs: seq<Db>) {
    forall k :: 0 <= k < |dbs| ==> Honest(dbs[k])
  }

  predicate Below(v: nat, skipped: Option<nat>) {
    skipped.Some? ==> v <= skipped.value
  }

  predicate AllBelow(values: seq<nat>, skipped: Option<nat>) {
    forall k :: 0 <= k < |values| ==> Below(values[k], skipped)
  }

  /** Neither a beat of the turn nor its own save is above the skipped batch. */
  predicate WritesBelow(i: nat, t: Turn, skipped: Option<nat>) {
    AllBelow(t.before, skipped) && (t.fate.Done? ==> Below(i + 1, skipped)) && AllBelow(t.after, skipped)
  }

  /** The first skipped batch, once batch `i` has had this turn. */
  function SkippedAfter(committed: set<nat>, i: nat, t: Turn, skipped: Option<nat>): Option<nat> {
    if skipped.None? && t.fate.Failed? && i !in committed then Some(i) else skipped
  }

  /**
   Once a batch that was never committed has been skipped, no save and no beat above its number
   lands. `committed` are the batches of earlier sessions.
   */
  ghost predicate NothingPastSkip(n: nat, committed: set<nat>, i: nat, turns: seq<Turn>, skipped: Option<nat>)
    decreases |turns|
  {
    i < n && turns != [] ==>
      && WritesBelow(i, turns[0], skipped)
      && (GoesOn(turns[0].fate) ==>
            NothingPastSkip(n, committed, i + 1, turns[1..], SkippedAfter(committed, i, turns[0], skipped)))
  }

  /** `skipped` is the first batch before `i` that is not committed, if there is one. */
  ghost predicate FirstMissing(committed: set<nat>, i: nat, skipped: Option<nat>) {
    match skipped
    case None => forall b :: 0 <= b < i ==> b in committed
    case Some(l) => l < i && l !in committed && forall b :: 0 <= b < l ==> b in committed
  }

  lemma BeatsHonest(db: Db, values: seq<nat>, i: nat, skipped: Option<nat>)
    requires FirstMissing(db.committed, i, skipped) && forall v :: v in values ==> v <= i
    ensures AllHonest(Beats(db, values)) <==> AllBelow(values, skipped)
  {
    forall k | 0 <= k < |values| ensures Honest(Beats(db, values)[k]) <==> Below(values[k], skipped) {
      assert values[k] in values;
    }
  }

  lemma AllHonestParts(a: seq<Db>, b: seq<Db>)
    ensures AllHonest(a + b) <==> AllHonest(a) && AllHonest(b)
  {
    if AllHonest(a + b) {
      assert forall k :: 0 <= k < |a| ==> a[k] == (a + b)[k];
      assert forall k :: 0 <= k < |b| ==> b[k] == (a + b)[|a| + k];
    }
  }

  /** Within one turn: honest throughout exactly when it writes nothing above the skipped batch. */
  lemma TurnHonestExact(job: Job, db: Db, i: nat, t: Turn, skipped: Option<nat>)
    requires i < |job.inputs| && Honest(db) && FirstMissing(db.committed, i, skipped)
    requires db.checkpoint <= i && forall v :: v in t.before + t.after ==> v <= i
    ensures AllHonest(TurnMoments(job, db, i, t))
       <==> WritesBelow(i, t, skipped)
  {
    var begun := db.(checkpoint := Land(db.checkpoint, t.before));
    var written := AfterCommit(job, begun, i, t);
    var saved := AfterSave(written, i, t);
    assert forall v :: v in t.before || v in t.after ==> v in t.before + t.after;
    AllHonestParts(Beats(db, t.before) + [written, saved], Beats(saved, t.after));
    AllHonestParts(Beats(db, t.before), [written, saved]);
    assert AllHonest([written, saved]) <==> Honest(written) && Honest(saved) by {
      assert [written, saved][0] == written && [written, saved][1] == saved;
    }
    BeatsHonest(db, t.before, i, skipped);
    BeatsHonest(saved, t.after, i, skipped);
    LandHonest(db, t.before);
    if AllBelow(t.before, skipped) {
      assert Honest(begun) && Honest(written);
    }
  }

  lemma LandHonest(db: Db, values: seq<nat>)
    requires Honest(db)
    ensures AllHonest(Beats(db, values)) ==> Honest(db.(checkpoint := Land(db.checkpoint, values)))
  {
    if values != [] && AllHonest(Beats(db, values)) {
      assert Honest(Beats(db, values)[|values| - 1]);
    }
  }

  /**
   With heartbeats that are late but do not overtake, a session that starts behind committed
   batches is honest at every moment exactly when, once it has skipped a batch that is not
   committed, no save and no beat above that batch lands.
   */
  lemma {:induction false} MomentsHonestExact(
    job: Job, db: Db, committed: set<nat>, i: nat, turns: seq<Turn>, skipped: Option<nat>)
    requires Honest(db) && db.checkpoint <= i && FirstMissing(db.committed, i, skipped) && Calm(i, turns)
    requires forall b :: b >= i ==> (b in committed <==> b in db.committed)
    ensures AllHonest(Moments(job, db, i, turns))
       <==> NothingPastSkip(|job.inputs|, committed, i, turns, skipped)
    decreases |turns|
  {
    if i < |job.inputs| && turns != [] {
      var t := turns[0];
      var next := TurnResult(job, db, i, t);
      TurnHonestExact(job, db, i, t, skipped);
      if GoesOn(t.fate) && AllHonest(TurnMoments(job, db, i, t)) {
        TurnEndsHonest(job, db, i, t);
        TurnCheckpoint(job, db, i, t, i);
        MomentsHonestExact(job, next, committed, i + 1, turns[1..], SkippedAfter(committed, i, t, skipped));
      }
      MomentsSplit(job, db, i, turns);
    }
  }

  lemma MomentsSplit(job: Job, db: Db, i: nat, turns: seq<Turn>)
    requires i < |job.inputs| && turns != []
    ensures AllHonest(Moments(job, db, i, turns)) <==>
      && AllHonest(TurnMoments(job, db, i, turns[0]))
      && (GoesOn(turns[0].fate) ==> AllHonest(Moments(job, TurnResult(job, db, i, turns[0]), i + 1, turns[1..])))
  {
    var now := TurnMoments(job, db, i, turns[0]);
    if GoesOn(turns[0].fate) {
      AllHonestParts(now, Moments(job, TurnResult(job, db, i, turns[0]), i + 1, turns[1..]));
    } else {
      assert now + [] == now;
    }
  }

  lemma TurnEndsHonest(job: Job, db: Db, i: nat, t: Turn)
    requires i < |job.inputs| && AllHonest(TurnMoments(job, db, i, t))
    ensures Honest(TurnResult(job, db, i, t))
  {
    TurnMomentsEnd(job, db, i, t);
  }

  // ---------------------------------------------------------------- whatever beats there may be

  function Fates(turns: seq<Turn>): seq<Fate> {
    seq(|turns|, k requires 0 <= k < |turns| => turns[k].fate)
  }

  /** No batch is taken up after one was skipped that was never committed. */
  predicate StopsAtSkip(n: nat, committed: set<nat>, i: nat, fates: seq<Fate>, skipped: Option<nat>)
    decreases |fates|
  {
    i < n && fates != [] ==>
      && skipped.None?
      && (GoesOn(fates[0]) ==>
            StopsAtSkip(n, committed, i + 1, fates[1..],
                        SkippedAfter(committed, i, Turn(fates[0], [], []), skipped)))
  }

  lemma FatesTail(turns: seq<Turn>)
    requires turns != []
    ensures Fates(turns) != [] && Fates(turns)[0] == turns[0].fate && Fates(turns)[1..] == Fates(turns[1..])
  {
  }

  lemma {:induction false} StopsNothingLands(
    n: nat, committed: set<nat>, i: nat, turns: seq<Turn>, skipped: Option<nat>)
    requires StopsAtSkip(n, committed, i, Fates(turns), skipped)
    ensures NothingPastSkip(n, committed, i, turns, skipped)
    decreases |turns|
  {
    if i < n && turns != [] {
      FatesTail(turns);
      if GoesOn(turns[0].fate) {
        StopsNothingLands(n, committed, i + 1, turns[1..], SkippedAfter(committed, i, turns[0], skipped));
      }
    }
  }

  /** Every batch sends one heartbeat of its own while it is worked on. */
  function Beating(fates: seq<Fate>, i: nat): seq<Turn> {
    seq(|fates|, k requires 0 <= k < |fates| => Turn(fates[k], [i + k], []))
  }

  lemma BeatingTail(fates: seq<Fate>, i: nat)
    requires fates != []
    ensures Beating(fates, i)[0] == Turn(fates[0], [i], []) && Beating(fates, i)[1..] == Beating(fates[1..], i + 1)
  {
  }

  lemma {:induction false} BeatingLands(n: nat, committed: set<nat>, i: nat, fates: seq<Fate>, skipped: Option<nat>)
    requires skipped.Some? ==> skipped.value < i
    requires NothingPastSkip(n, committed, i, Beating(fates, i), skipped)
    ensures StopsAtSkip(n, committed, i, fates, skipped)
    decreases |fates|
  {
    if i < n && fates != [] {
      BeatingTail(fates, i);
      var first := Beating(fates, i)[0];
      assert WritesBelow(i, first, skipped);
      assert skipped.Some? ==> Below(first.before[0], skipped);
      if GoesOn(fates[0]) {
        BeatingLands(n, committed, i + 1, fates[1..], SkippedAfter(committed, i, first, skipped));
      }
    }
  }

  /**
   What a session can count on without knowing when beats land: with given fates, it is honest
   at every moment under every calm placement of beats exactly when it takes up no batch after
   one that was skipped and never committed.
   */
  lemma EveryPlacementHonestExact(job: Job, db: Db, fates: seq<Fate>)
    requires Honest(db)
    ensures (forall turns :: Fates(turns) == fates && Calm(db.checkpoint, turns) ==>
               AllHonest(Moments(job, db, db.checkpoint, turns)))
       <==> StopsAtSkip(|job.inputs|, db.committed, db.checkpoint, fates, None)
  {
    var n, i := |job.inputs|, db.checkpoint;
    forall turns | Fates(turns) == fates && Calm(i, turns)
      ensures AllHonest(Moments(job, db, i, turns)) <==> NothingPastSkip(n, db.committed, i, turns, None)
    {
      MomentsHonestExact(job, db, db.committed, i, turns, None);
    }
    if StopsAtSkip(n, db.committed, i, fates, None) {
      forall turns | Fates(turns) == fates && Calm(i, turns) ensures AllHonest(Moments(job, db, i, turns)) {
        StopsNothingLands(n, db.committed, i, turns, None);
      }
    } else {
      var turns := Beating(fates, i);
      assert Fates(turns) == fates;
      assert Calm(i, turns);
      if NothingPastSkip(n, db.committed, i, turns, None) {
        BeatingLands(n, db.committed, i, fates, None);
        assert false;
      }
    }
  }

  // ---------------------------------------------------------------- over all sessions

  ghost predicate CalmSessions(job: Job, db: Db, sessions: seq<seq<Turn>>)
    decreases |sessions|
  {
    sessions != [] ==>
      && Calm(db.checkpoint, sessions[0])
      && CalmSessions(job, Session(job, db, db.checkpoint, sessions[0]).0, sessions[1..])
  }

  function AllMoments(job: Job, db: Db, sessions: seq<seq<Turn>>): seq<Db>
    decreases |sessions|
  {
    if sessions == [] then [db]
    else
      Moments(job, db, db.checkpoint, sessions[0])
      + AllMoments(job, Session(job, db, db.checkpoint, sessions[0]).0, sessions[1..])
  }

  /** No session writes a checkpoint above a batch that it skipped and that was never committed. */
  ghost predicate NeverPastSkip(job: Job, db: Db, sessions: seq<seq<Turn>>)
    decreases |sessions|
  {
    sessions != [] ==>
      && NothingPastSkip(|job.inputs|, db.committed, db.checkpoint, sessions[0], None)
      && NeverPastSkip(job, Session(job, db, db.checkpoint, sessions[0]).0, sessions[1..])
  }

  /**
   Over all sessions, skipped batches included: the persisted checkpoint vouches for committed
   batches at every moment exactly when no checkpoint above a skipped batch is ever written.
   */
  lemma {:induction false} CheckpointHonestExact(job: Job, db: Db, sessions: seq<seq<Turn>>)
    requires Honest(db) && CalmSessions(job, db, sessions)
    ensures AllHonest(AllMoments(job, db, sessions)) <==> NeverPastSkip(job, db, sessions)
    decreases |sessions|
  {
    if sessions != [] {
      var moments := Moments(job, db, db.checkpoint, sessions[0]);
      var after := Session(job, db, db.checkpoint, sessions[0]).0;
      MomentsHonestExact(job, db, db.committed, db.checkpoint, sessions[0], None);
      MomentsEndInSession(job, db, db.checkpoint, sessions[0]);
      AllHonestParts(moments, AllMoments(job, after, sessions[1..]));
      if AllHonest(moments) {
        assert Honest(Last(moments));
        CheckpointHonestExact(job, after, sessions[1..]);
      }
    }
  }

  // ---------------------------------------------------------------- reported as empty

  predicate QuietAt(job: Job, i: nat, turns: seq<Turn>, b: nat)
    requires i <= b < |job.inputs|
  {
    b - i < |turns| && turns[b - i].fate.Done? && BatchRows(job, b) == []
  }

  /** Every batch from `i` on succeeds, and answers nothing. */
  predicate QuietFinish(job: Job, i: nat, turns: seq<Turn>) {
    forall b :: i <= b < |job.inputs| ==> QuietAt(job, i, turns, b)
  }

  lemma QuietFinishStep(job: Job, i: nat, turns: seq<Turn>)
    requires i < |job.inputs| && turns != []
    ensures QuietFinish(job, i, turns) <==>
      turns[0].fate.Done? && BatchRows(job, i) == [] && QuietFinish(job, i + 1, turns[1..])
  {
    forall b: nat | i + 1 <= b < |job.inputs|
      ensures QuietAt(job, i, turns, b) <==> QuietAt(job, i + 1, turns[1..], b)
    {
      assert b - i < |turns| ==> turns[b - i] == turns[1..][b - (i + 1)];
    }
    if QuietFinish(job, i, turns) {
      assert QuietAt(job, i, turns, i);
      var next, tail := i + 1, turns[1..];
      forall b | next <= b < |job.inputs| ensures QuietAt(job, next, tail, b) {
        assert QuietAt(job, i, turns, b);
      }
    }
    if turns[0].fate.Done? && BatchRows(job, i) == [] && QuietFinish(job, i + 1, turns[1..]) {
      forall b | i <= b < |job.inputs| ensures QuietAt(job, i, turns, b) {
        assert b > i ==> QuietAt(job, i + 1, turns[1..], b);
      }
    }
  }

  lemma {:induction false} StatusFromExact(job: Job, i: nat, turns: seq<Turn>, total: nat, failed: nat)
    ensures StatusFrom(job, i, turns, total, failed) == NoDecisions
       <==> total == 0 && failed == 0 && QuietFinish(job, i, turns)
    decreases |turns|
  {
    if i < |job.inputs| && turns == [] {
      assert !QuietAt(job, i, turns, i);
    } else if i < |job.inputs| {
      QuietFinishStep(job, i, turns);
      match turns[0].fate
      case Done => StatusFromExact(job, i + 1, turns[1..], total + |BatchRows(job, i)|, failed);
      case FailedAfterCommit => StatusFromExact(job, i + 1, turns[1..], total + |BatchRows(job, i)|, failed + 1);
      case Failed => StatusFromExact(job, i + 1, turns[1..], total, failed + 1);
      case _ =>
    }
  }

  /** A session is reported as having produced nothing exactly when its own batches answer nothing. */
  lemma LooksEmptyExact(job: Job, start: nat, turns: seq<Turn>)
    ensures SessionStatus(job, start, turns) == NoDecisions <==> QuietFinish(job, start, turns)
  {
    StatusFromExact(job, start, turns, 0, 0);
  }

  ghost predicate HasDecisions(job: Job, db: Db) {
    exists b :: b in db.committed && b < |job.inputs| && BatchRows(job, b) != []
  }

  lemma {:induction false} SessionCommitsGrow(job: Job, db: Db, i: nat, turns: seq<Turn>)
    ensures db.committed <= Session(job, db, i, turns).0.committed
    decreases |turns|
  {
    if i < |job.inputs| && turns != [] && GoesOn(turns[0].fate) {
      SessionCommitsGrow(job, TurnResult(job, db, i, turns[0]), i + 1, turns[1..]);
    }
  }

  /**
   A resumed job with committed decisions is reported as empty exactly when the batches from
   its checkpoint on answer nothing, none at the end included, and an earlier one answered.
   */
  lemma DecisionsReportedEmptyExact(job: Job, db: Db, turns: seq<Turn>)
    requires Honest(db)
    ensures SessionStatus(job, db.checkpoint, turns) == NoDecisions
            && HasDecisions(job, Session(job, db, db.checkpoint, turns).0)
       <==> QuietFinish(job, db.checkpoint, turns)
            && exists b :: 0 <= b < db.checkpoint && b < |job.inputs| && BatchRows(job, b) != []
  {
    LooksEmptyExact(job, db.checkpoint, turns);
    SessionCommitsGrow(job, db, db.checkpoint, turns);
    var after := Session(job, db, db.checkpoint, turns).0;
    if b :| 0 <= b < db.checkpoint && b < |job.inputs| && BatchRows(job, b) != [] {
      assert b in after.committed;
    }
    if QuietFinish(job, db.checkpoint, turns) && HasDecisions(job, after) {
      var b :| b in after.committed && b < |job.inputs| && BatchRows(job, b) != [];
      assert b >= db.checkpoint ==> QuietAt(job, db.checkpoint, turns, b);
    }
  }
}
