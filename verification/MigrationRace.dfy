/**
 The migration lock and the runner together: processes of several hosts take the lock, read
 the ledger, and commit their pending files one transaction at a time, while the lease, which
 is never renewed, runs out. Files are committed together with their rows.
 */
module MigrationRace {
  import opened Common
  import opened MigrationLock

  /**
   The processes, the files, and whether every run ends within its lease, so that a process
   reads and commits only while its lock is live.
   */
  datatype Setting = Setting(fleet: Fleet, files: set<string>, inLease: bool)

  /** The lock, the bodies committed so far, and the files each running process has left to do. */
  datatype Race = Race(lock: State, committed: seq<string>, todo: map<int, set<string>>)

  datatype Move = Lock(a: Action) | ReadApplied(p: int) | CommitFile(p: int, name: string)

  const UNLOCKED := Race(START, [], map[])

  predicate Holds(lock: State, p: int) {
    p in lock.phase && lock.phase[p].Holding?
  }

  predicate MayWork(w: Setting, s: Race, p: int) {
    Holds(s.lock, p) && (w.inLease ==> HoldsLive(s.lock, p))
  }

  /** A process that releases the lock, or dies, forgets what it had left to do. */
  function Advance(w: Setting, s: Race, m: Move): Race {
    match m
    case Lock(a) =>
      var lock := Step(w.fleet, s.lock, a);
      s.(lock := lock, todo := if a.Tick? || Holds(lock, a.p) then s.todo else s.todo - {a.p})
    case ReadApplied(p) =>
      if MayWork(w, s, p) && p !in s.todo
      then s.(todo := s.todo[p := w.files - (set name | name in s.committed)])
      else s
    case CommitFile(p, name) =>
      if MayWork(w, s, p) && p in s.todo && name in s.todo[p]
      then s.(committed := s.committed + [name], todo := s.todo[p := s.todo[p] - {name}])
      else s
  }

  function Play(w: Setting, s: Race, moves: seq<Move>): Race
    decreases |moves|
  {
    if moves == [] then s else Play(w, Advance(w, s, moves[0]), moves[1..])
  }

  ghost predicate NoneTwice(names: seq<string>) {
    forall i, j :: 0 <= i < j < |names| ==> names[i] != names[j]
  }

  /** Whatever happens, no file's body commits twice. */
  ghost predicate NeverTwice(w: Setting) {
    forall moves :: NoneTwice(Play(w, UNLOCKED, moves).committed)
  }

  ghost predicate OneProcess(f: Fleet) {
    forall p, q :: p in f.procs && q in f.procs ==> p == q
  }

  // ---------------------------------------------------------------- at most one works at a time

  /** What a process that may still work has left to do, nobody has done. */
  ghost predicate Apart(w: Setting, s: Race) {
    && NoneTwice(s.committed)
    && (forall p :: p in s.lock.phase ==> p in w.fleet.procs)
    && (forall p :: p in s.todo ==> Holds(s.lock, p))
    && (forall p, name :: p in s.todo && name in s.todo[p] && (HoldsLive(s.lock, p) || OneProcess(w.fleet)) ==>
          name !in s.committed)
  }

  ghost predicate Exclusive(w: Setting) {
    OneProcess(w.fleet) || (w.inLease && DistinctHosts(w.fleet))
  }

  ghost predicate Inv(w: Setting, s: Race) {
    Apart(w, s) && (DistinctHosts(w.fleet) ==> Backed(w.fleet, s.lock))
  }

  lemma OnlyWorker(w: Setting, s: Race, p: int, q: int)
    requires Exclusive(w) && Inv(w, s) && MayWork(w, s, p) && Holds(s.lock, q)
    requires HoldsLive(s.lock, q) || OneProcess(w.fleet)
    ensures p == q
  {
    assert p in s.lock.phase && q in s.lock.phase;
  }

  lemma LockKeeps(w: Setting, s: Race, a: Action)
    requires Inv(w, s)
    ensures Inv(w, Advance(w, s, Lock(a)))
  {
    if DistinctHosts(w.fleet) {
      StepBacked(w.fleet, s.lock, a);
    }
    var s' := Advance(w, s, Lock(a));
    forall p | p in s'.todo ensures Holds(s'.lock, p) && (HoldsLive(s'.lock, p) ==> HoldsLive(s.lock, p)) {
      assert p in s.todo && Holds(s.lock, p);
    }
  }

  lemma CommitKeeps(w: Setting, s: Race, p: int, name: string)
    requires Exclusive(w) && Inv(w, s)
    ensures Inv(w, Advance(w, s, CommitFile(p, name)))
  {
    if MayWork(w, s, p) && p in s.todo && name in s.todo[p] {
      var s' := Advance(w, s, CommitFile(p, name));
      assert name !in s.committed;
      forall q, other | q in s'.todo && other in s'.todo[q] && (HoldsLive(s'.lock, q) || OneProcess(w.fleet))
        ensures other !in s'.committed
      {
        OnlyWorker(w, s, p, q);
      }
    }
  }

  lemma {:induction false} PlayKeeps(w: Setting, s: Race, moves: seq<Move>)
    requires Exclusive(w) && Inv(w, s)
    ensures Inv(w, Play(w, s, moves))
    decreases |moves|
  {
    if moves != [] {
      match moves[0] {
        case Lock(a) => LockKeeps(w, s, a);
        case ReadApplied(p) =>
        case CommitFile(p, name) => CommitKeeps(w, s, p, name);
      }
      PlayKeeps(w, Advance(w, s, moves[0]), moves[1..]);
    }
  }

  // ---------------------------------------------------------------- two that work at once

  function Locks(actions: seq<Action>): seq<Move> {
    seq(|actions|, i requires 0 <= i < |actions| => Lock(actions[i]))
  }

  lemma {:induction false} PlayAppend(w: Setting, s: Race, a: seq<Move>, b: seq<Move>)
    ensures Play(w, s, a + b) == Play(w, Play(w, s, a), b)
    decreases |a|
  {
    if a == [] {
      assert a + b == b;
    } else {
      assert (a + b)[1..] == a[1..] + b;
      PlayAppend(w, Advance(w, s, a[0]), a[1..], b);
    }
  }

  /** Lock statements of processes with nothing left to do change the lock alone. */
  lemma {:induction false} PlayLocks(w: Setting, s: Race, actions: seq<Action>)
    requires forall a :: a in actions ==> a.Tick? || a.p !in s.todo
    ensures Play(w, s, Locks(actions)) == s.(lock := Run(w.fleet, s.lock, actions))
    decreases |actions|
  {
    if actions != [] {
      var moves, first := Locks(actions), actions[0];
      assert moves[1..] == Locks(actions[1..]) && moves[0] == Lock(first);
      assert first in actions;
      assert first.Tick? || s.todo - {first.p} == s.todo;
      assert Advance(w, s, moves[0]) == s.(lock := Step(w.fleet, s.lock, first));
      PlayLocks(w, Advance(w, s, moves[0]), actions[1..]);
    }
  }

  /** Two processes that both read the ledger before either commits both commit the file. */
  lemma BothCommit(w: Setting, s: Race, p: int, q: int, name: string)
    requires p != q && name in w.files && s.committed == []
    requires MayWork(w, s, p) && MayWork(w, s, q) && p in s.todo && name in s.todo[p] && q !in s.todo
    ensures Play(w, s, [ReadApplied(q), CommitFile(p, name), CommitFile(q, name)]).committed == [name, name]
  {
    var moves := [ReadApplied(q), CommitFile(p, name), CommitFile(q, name)];
    var s1 := Advance(w, s, moves[0]);
    var s2 := Advance(w, s1, moves[1]);
    assert moves[1..] == [moves[1], moves[2]] && moves[1..][1..] == [moves[2]] && moves[1..][1..][1..] == [];
    assert Play(w, s, moves) == Play(w, s1, moves[1..]) == Play(w, s2, moves[1..][1..]);
    assert Play(w, s2, [moves[2]]) == Advance(w, s2, moves[2]);
  }

  /** Two processes of one host hold the lock together, within their leases. */
  lemma SharedHostTwice(w: Setting, p: int, q: int, name: string) returns (moves: seq<Move>)
    requires p in w.fleet.procs && q in w.fleet.procs && p != q && w.fleet.host(p) == w.fleet.host(q)
    requires name in w.files
    ensures Play(w, UNLOCKED, moves).committed == [name, name]
  {
    var both := Attempt(p) + Attempt(q);
    var end := [ReadApplied(q), CommitFile(p, name), CommitFile(q, name)];
    SharedHostBothHold(w.fleet, p, q);
    PlayLocks(w, UNLOCKED, both);
    var s := UNLOCKED.(lock := Run(w.fleet, START, both));
    var s1 := Advance(w, s, ReadApplied(p));
    moves := Locks(both) + ([ReadApplied(p)] + end);
    PlayAppend(w, UNLOCKED, Locks(both), [ReadApplied(p)] + end);
    PlayAppend(w, s, [ReadApplied(p)], end);
    assert Play(w, s, [ReadApplied(p)]) == s1 by {
      assert [ReadApplied(p)][1..] == [];
    }
    BothCommit(w, s1, p, q, name);
  }

  /** A process whose lease has run out goes on, beside one that took the lock after it. */
  lemma LateRunnerTwice(w: Setting, p: int, q: int, name: string) returns (moves: seq<Move>)
    requires !w.inLease && p in w.fleet.procs && q in w.fleet.procs && p != q && name in w.files
    ensures Play(w, UNLOCKED, moves).committed == [name, name]
  {
    var f := w.fleet;
    var end := [ReadApplied(q), CommitFile(p, name), CommitFile(q, name)];
    var wait := [Tick(LOCK_TIMEOUT + 1)];
    var s := UNLOCKED.(lock := Run(f, START, Attempt(p)));
    AttemptSucceeds(f, START, p);
    PlayLocks(w, UNLOCKED, Attempt(p));
    var s1 := Advance(w, s, ReadApplied(p));
    var later := Run(f, s1.lock, wait);
    assert s1.lock == State(0, Some(LockRow(f.host(p), LOCK_TIMEOUT)), map[p := Holding(LOCK_TIMEOUT)]);
    assert wait[1..] == [] && later == Run(f, Step(f, s1.lock, wait[0]), []) == Step(f, s1.lock, wait[0]);
    AttemptSucceeds(f, later, q);
    RunAppend(f, s1.lock, wait, Attempt(q));
    PlayLocks(w, s1, wait + Attempt(q));
    var s2 := s1.(lock := Run(f, s1.lock, wait + Attempt(q)));
    moves := Locks(Attempt(p)) + ([ReadApplied(p)] + (Locks(wait + Attempt(q)) + end));
    PlayAppend(w, UNLOCKED, Locks(Attempt(p)), [ReadApplied(p)] + (Locks(wait + Attempt(q)) + end));
    PlayAppend(w, s, [ReadApplied(p)], Locks(wait + Attempt(q)) + end);
    PlayAppend(w, s1, Locks(wait + Attempt(q)), end);
    assert Play(w, s, [ReadApplied(p)]) == s1 by {
      assert [ReadApplied(p)][1..] == [];
    }
    BothCommit(w, s2, p, q, name);
  }

  /**
   Over every interleaving of the processes' lock statements and file transactions, no file's
   body commits twice exactly when every run ends within its lease and no host runs two
   processes, or there is at most one process, or nothing to apply.
   */
  lemma NeverTwiceExact(w: Setting)
    ensures NeverTwice(w) <==> w.files == {} || OneProcess(w.fleet) || (w.inLease && DistinctHosts(w.fleet))
  {
    if Exclusive(w) {
      forall moves ensures NoneTwice(Play(w, UNLOCKED, moves).committed) {
        PlayKeeps(w, UNLOCKED, moves);
      }
    } else if w.files == {} {
      forall moves ensures NoneTwice(Play(w, UNLOCKED, moves).committed) {
        NothingToDo(w, UNLOCKED, moves);
      }
    } else {
      var name :| name in w.files;
      var moves: seq<Move>;
      if DistinctHosts(w.fleet) {
        var p, q :| p in w.fleet.procs && q in w.fleet.procs && p != q;
        moves := LateRunnerTwice(w, p, q, name);
      } else {
        var p, q :| p in w.fleet.procs && q in w.fleet.procs && p != q && w.fleet.host(p) == w.fleet.host(q);
        moves := SharedHostTwice(w, p, q, name);
      }
      assert !NoneTwice([name, name]) by {
        assert [name, name][0] == [name, name][1];
      }
    }
  }

  lemma {:induction false} NothingToDo(w: Setting, s: Race, moves: seq<Move>)
    requires w.files == {} && s.committed == [] && forall p :: p in s.todo ==> s.todo[p] == {}
    ensures Play(w, s, moves).committed == []
    decreases |moves|
  {
    if moves != [] {
      NothingToDo(w, Advance(w, s, moves[0]), moves[1..]);
    }
  }
}
