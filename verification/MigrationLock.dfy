/**
 The migration lease lock: one row, purged when expired, inserted if absent, then verified by
 host name, each in its own SQL statement, with any number of processes interleaved.
 */
module MigrationLock {
  import opened Common

  /** Lease length in milliseconds. */
  const LOCK_TIMEOUT := 30_000

  datatype LockRow = LockRow(lockedBy: string, expiresAt: int)

  datatype Verification = Acquired(expiresAt: int) | Missing | HeldBy(host: string)

  // ---------------------------------------------------------------- the statements

  function Purged(row: Option<LockRow>, now: int): Option<LockRow> {
    if row.Some? && row.value.expiresAt < now then None else row
  }

  function Inserted(row: Option<LockRow>, host: string, expiresAt: int): Option<LockRow> {
    if row.None? then Some(LockRow(host, expiresAt)) else row
  }

  function Verified(row: Option<LockRow>, host: string, now: int): Verification {
    if row.None? || row.value.expiresAt <= now then Missing
    else if row.value.lockedBy != host then HeldBy(row.value.lockedBy)
    else Acquired(row.value.expiresAt)
  }

  function Released(row: Option<LockRow>, host: string): Option<LockRow> {
    if row.Some? && row.value.lockedBy == host then None else row
  }

  /** The lock table's only row, updated in place. */
  class LockTable {
    var row: Option<LockRow>

    constructor ()
      ensures row == None
    {
      row := None;
    }

    method Purge(now: int)
      modifies this
      ensures row == Purged(old(row), now)
    {
      if row.Some? && row.value.expiresAt < now {
        row := None;
      }
    }

    method InsertIfAbsent(host: string, expiresAt: int)
      modifies this
      ensures row == Inserted(old(row), host, expiresAt)
    {
      if row.None? {
        row := Some(LockRow(host, expiresAt));
      }
    }

    /** The three statements with nothing in between. */
    method Acquire(host: string, now: int) returns (result: Verification)
      modifies this
      ensures row == if old(row).None? || old(row).value.expiresAt < now
                     then Some(LockRow(host, now + 30_000))
                     else old(row)
      ensures result == if row.value.expiresAt <= now then Missing
                        else if row.value.lockedBy == host then Acquired(row.value.expiresAt)
                        else HeldBy(row.value.lockedBy)
    {
      var expiresAt := now + LOCK_TIMEOUT;
      Purge(now);
      InsertIfAbsent(host, expiresAt);
      result := Verified(row, host, now);
    }

    method Release(host: string)
      modifies this
      ensures row == Released(old(row), host)
    {
      if row.Some? && row.value.lockedBy == host {
        row := None;
      }
    }
  }

  // ---------------------------------------------------------------- interleaved processes

  /** A process that computed its expiry, purged, inserted, or holds a row it verified. */
  datatype Phase = Begun(expiresAt: int) | Cleaned(expiresAt: int) | Asked | Holding(expiresAt: int)

  datatype State = State(now: int, row: Option<LockRow>, phase: map<int, Phase>)

  datatype Action =
    | Tick(ms: nat)
    | Begin(p: int) | Purge(p: int) | Insert(p: int) | Verify(p: int) | Release(p: int) | Crash(p: int)

  /** The processes that may run and the host each runs on. */
  datatype Fleet = Fleet(procs: set<int>, host: int -> string)

  const START := State(0, None, map[])

  predicate In(s: State, p: int, ph: Phase -> bool) {
    p in s.phase && ph(s.phase[p])
  }

  /** One statement of one process; a step that is not the process's next changes nothing. */
  function Step(f: Fleet, s: State, a: Action): State {
    if a.Tick? then s.(now := s.now + a.ms)
    else if a.p !in f.procs then s
    else
      match a
      case Begin(p) =>
        if In(s, p, (ph: Phase) => ph.Holding?) then s else s.(phase := s.phase[p := Begun(s.now + LOCK_TIMEOUT)])
      case Purge(p) =>
        if In(s, p, (ph: Phase) => ph.Begun?)
        then s.(row := Purged(s.row, s.now), phase := s.phase[p := Cleaned(s.phase[p].expiresAt)])
        else s
      case Insert(p) =>
        if In(s, p, (ph: Phase) => ph.Cleaned?)
        then s.(row := Inserted(s.row, f.host(p), s.phase[p].expiresAt), phase := s.phase[p := Asked])
        else s
      case Verify(p) =>
        if In(s, p, (ph: Phase) => ph.Asked?) then
          var v := Verified(s.row, f.host(p), s.now);
          s.(phase := if v.Acquired? then s.phase[p := Holding(v.expiresAt)] else s.phase - {p})
        else s
      case Release(p) =>
        if In(s, p, (ph: Phase) => ph.Holding?)
        then s.(row := Released(s.row, f.host(p)), phase := s.phase - {p})
        else s
      case Crash(p) => s.(phase := s.phase - {p})
  }

  function Run(f: Fleet, s: State, actions: seq<Action>): State
    decreases |actions|
  {
    if actions == [] then s else Run(f, Step(f, s, actions[0]), actions[1..])
  }

  /** The process believes it holds the lock, and the row it verified has not expired. */
  predicate HoldsLive(s: State, p: int) {
    p in s.phase && s.phase[p].Holding? && s.now <= s.phase[p].expiresAt
  }

  // ---------------------------------------------------------------- exclusion

  ghost predicate DistinctHosts(f: Fleet) {
    forall p, q :: p in f.procs && q in f.procs && p != q ==> f.host(p) != f.host(q)
  }

  ghost predicate OneHost(f: Fleet) {
    forall p, q :: p in f.procs && q in f.procs ==> f.host(p) == f.host(q)
  }

  /** No two processes ever hold live locks at once. */
  ghost predicate AlwaysExclusive(f: Fleet) {
    forall actions, p, q :: p != q ==>
      !(HoldsLive(Run(f, START, actions), p) && HoldsLive(Run(f, START, actions), q))
  }

  /** Two processes on different hosts never hold live locks at once. */
  ghost predicate ExclusiveAcrossHosts(f: Fleet) {
    forall actions, p, q :: f.host(p) != f.host(q) ==>
      !(HoldsLive(Run(f, START, actions), p) && HoldsLive(Run(f, START, actions), q))
  }

  /** A live lock is backed by the row its holder verified. */
  ghost predicate Backed(f: Fleet, s: State) {
    && (forall p :: p in s.phase ==> p in f.procs)
    && (forall p :: HoldsLive(s, p) ==> s.row == Some(LockRow(f.host(p), s.phase[p].expiresAt)))
  }

  lemma StepBacked(f: Fleet, s: State, a: Action)
    requires DistinctHosts(f) && Backed(f, s)
    ensures Backed(f, Step(f, s, a))
  {
    var s' := Step(f, s, a);
    forall p | HoldsLive(s', p) ensures s'.row == Some(LockRow(f.host(p), s'.phase[p].expiresAt)) {
      if a.Tick? || a.p != p {
        assert HoldsLive(s, p);
      }
    }
  }

  lemma {:induction false} RunBacked(f: Fleet, s: State, actions: seq<Action>)
    requires DistinctHosts(f) && Backed(f, s)
    ensures Backed(f, Run(f, s, actions))
    decreases |actions|
  {
    if actions != [] {
      StepBacked(f, s, actions[0]);
      RunBacked(f, Step(f, s, actions[0]), actions[1..]);
    }
  }

  lemma {:induction false} RunAppend(f: Fleet, s: State, a: seq<Action>, b: seq<Action>)
    ensures Run(f, s, a + b) == Run(f, Run(f, s, a), b)
    decreases |a|
  {
    if a == [] {
      assert a + b == b;
    } else {
      assert (a + b)[1..] == a[1..] + b;
      RunAppend(f, Step(f, s, a[0]), a[1..], b);
    }
  }

  function Attempt(p: int): seq<Action> {
    [Begin(p), Purge(p), Insert(p), Verify(p)]
  }

  /** An undisturbed attempt with the table empty, or an expired row, or a live row of the same host. */
  lemma AttemptSucceeds(f: Fleet, s: State, p: int)
    requires p in f.procs && p !in s.phase
    requires s.row.None? || s.row.value.expiresAt < s.now
          || (s.row.value.lockedBy == f.host(p) && s.row.value.expiresAt > s.now)
    ensures var row := if s.row.None? || s.row.value.expiresAt < s.now
                       then LockRow(f.host(p), s.now + LOCK_TIMEOUT) else s.row.value;
            Run(f, s, Attempt(p)) == State(s.now, Some(row), s.phase[p := Holding(row.expiresAt)])
  {
    var s1 := Step(f, s, Begin(p));
    var s2 := Step(f, s1, Purge(p));
    var s3 := Step(f, s2, Insert(p));
    var s4 := Step(f, s3, Verify(p));
    var a := Attempt(p);
    assert a[1..] == [Purge(p), Insert(p), Verify(p)] && a[1..][1..] == [Insert(p), Verify(p)];
    assert a[1..][1..][1..] == [Verify(p)] && a[1..][1..][1..][1..] == [];
    assert Run(f, s, a) == Run(f, s1, a[1..]) == Run(f, s2, a[1..][1..]);
    assert Run(f, s2, a[1..][1..]) == Run(f, s3, [Verify(p)]) == s4;
    assert s4.phase == s.phase[p := s4.phase[p]];
  }

  /** Two processes on one host both pass the verification. */
  lemma SharedHostBothHold(f: Fleet, p: int, q: int)
    requires p in f.procs && q in f.procs && p != q && f.host(p) == f.host(q)
    ensures Run(f, START, Attempt(p) + Attempt(q))
         == State(0, Some(LockRow(f.host(p), LOCK_TIMEOUT)),
                  map[p := Holding(LOCK_TIMEOUT), q := Holding(LOCK_TIMEOUT)])
  {
    RunAppend(f, START, Attempt(p), Attempt(q));
    AttemptSucceeds(f, START, p);
    AttemptSucceeds(f, Run(f, START, Attempt(p)), q);
  }

  /** One of two processes on a host releases the row that the other still relies on. */
  lemma ReleaseUnlocksSibling(f: Fleet, p: int, q: int, r: int)
    requires p in f.procs && q in f.procs && r in f.procs && p != q
    requires f.host(p) == f.host(q) && f.host(r) != f.host(p)
    ensures var s := Run(f, START, Attempt(p) + Attempt(q) + ([Release(q)] + Attempt(r)));
            HoldsLive(s, p) && HoldsLive(s, r)
  {
    var both := Run(f, START, Attempt(p) + Attempt(q));
    SharedHostBothHold(f, p, q);
    RunAppend(f, START, Attempt(p) + Attempt(q), [Release(q)] + Attempt(r));
    RunAppend(f, both, [Release(q)], Attempt(r));
    assert [Release(q)][1..] == [];
    var s := Run(f, both, [Release(q)]);
    assert s == Step(f, both, Release(q));
    AttemptSucceeds(f, s, r);
  }

  /** The lock excludes every two processes, up to expiry, exactly when no host runs two of them. */
  lemma ExclusiveExact(f: Fleet)
    ensures AlwaysExclusive(f) <==> DistinctHosts(f)
  {
    if DistinctHosts(f) {
      forall actions, p, q | p != q
        ensures !(HoldsLive(Run(f, START, actions), p) && HoldsLive(Run(f, START, actions), q))
      {
        RunBacked(f, START, actions);
      }
    } else {
      var p, q :| p in f.procs && q in f.procs && p != q && f.host(p) == f.host(q);
      SharedHostBothHold(f, p, q);
      var s := Run(f, START, Attempt(p) + Attempt(q));
      assert HoldsLive(s, p) && HoldsLive(s, q);
    }
  }

  /**
   Two processes on different hosts hold the lock at once only after a verified row expired:
   this is guaranteed exactly when no host runs two processes, or there is only one host.
   */
  lemma ExclusiveAcrossHostsExact(f: Fleet)
    ensures ExclusiveAcrossHosts(f) <==> DistinctHosts(f) || OneHost(f)
  {
    forall actions { RunInFleet(f, START, actions); }
    if DistinctHosts(f) {
      ExclusiveExact(f);
    } else if !OneHost(f) {
      var p, q :| p in f.procs && q in f.procs && p != q && f.host(p) == f.host(q);
      var r :| r in f.procs && f.host(r) != f.host(p);
      ReleaseUnlocksSibling(f, p, q, r);
      var s := Run(f, START, Attempt(p) + Attempt(q) + ([Release(q)] + Attempt(r)));
      assert HoldsLive(s, p) && HoldsLive(s, r);
    }
  }

  lemma {:induction false} RunInFleet(f: Fleet, s: State, actions: seq<Action>)
    requires forall p :: p in s.phase ==> p in f.procs
    ensures forall p :: p in Run(f, s, actions).phase ==> p in f.procs
    decreases |actions|
  {
    if actions != [] {
      RunInFleet(f, Step(f, s, actions[0]), actions[1..]);
    }
  }
}
