/**
 The bounded, lazily expiring store refines an unbounded one that sweeps every pending
 request past its time before each call.
 */
module ApprovalRefinement {
  import opened Common
  import opened Approvals
  import opened ApprovalHistory

  // ---------------------------------------------------------------- the reference store

  /** Every request ever created, at the index of its identifier. */
  type Archive = seq<Request>

  function SweepOne(r: Request, now: int): Request {
    if IsExpired(r, now) then Expiry(r, now) else r
  }

  function Sweep(all: Archive, now: int): (swept: Archive)
    ensures |swept| == |all| && forall k :: 0 <= k < |all| ==> swept[k] == SweepOne(all[k], now)
  {
    seq(|all|, k requires 0 <= k < |all| => SweepOne(all[k], now))
  }

  /** The first request the program still remembers. */
  function Oldest(all: Archive): nat {
    if |all| > 500 then |all| - 500 else 0
  }

  /** The reference semantics: sweep everything, then act on the request itself. */
  function Act(all: Archive, op: Operation, now: int): (Archive, Answer) {
    ActSwept(Sweep(all, now), op, now)
  }

  function ActSwept(all: Archive, op: Operation, now: int): (Archive, Answer) {
    match op
    case Create(input) =>
      var r := NewRequest(|all|, input, now);
      (all + [r], One(r))
    case GetById(id) => (all, if Oldest(all) <= id < |all| then One(all[id]) else Missing)
    case Modify(id, change) =>
      Decide(all, id, if Oldest(all) <= id < |all| then Changed(all[id], change, now) else Err(NotFound))
    case GetPending(tenant) => (all, Many(PendingOf(Recent(all), tenant)))
  }

  function Decide(all: Archive, id: nat, result: Result<Request>): (Archive, Answer) {
    match result
    case Err(e) => (all, Failed(e))
    case Ok(r) => (if id < |all| then all[id := r] else all, One(r))
  }

  function Perform(all: Archive, calls: seq<Call>): Archive
    decreases |calls|
  {
    if calls == [] then all else Perform(Act(all, calls[0].op, calls[0].now).0, calls[1..])
  }

  // ---------------------------------------------------------------- the refinement

  /** Two versions differ at most in when an expired request was found to be expired. */
  function Masked(r: Request): Request {
    if r.status.Expired? then r.(resolvedAt := None) else r
  }

  function MaskedAnswer(a: Answer): Answer {
    match a case One(r) => One(Masked(r)) case _ => a
  }

  ghost predicate Alike(r: Request, u: Request, now: int) {
    Masked(SweepOne(r, now)) == Masked(SweepOne(u, now))
  }

  ghost predicate AllAlike(rs: seq<Request>, us: seq<Request>, now: int) {
    |rs| == |us| && forall j :: 0 <= j < |rs| ==> Alike(rs[j], us[j], now)
  }

  /** The requests the program still remembers. */
  function Recent(all: Archive): Archive {
    all[Oldest(all)..]
  }

  ghost predicate NoneExpired(rs: seq<Request>, now: int) {
    forall k :: 0 <= k < |rs| ==> !IsExpired(rs[k], now)
  }

  /** At time `now` the buffer shows the last requests of the archive. */
  ghost predicate Shows(s: Store, all: Archive, now: int) {
    s.created == |all| && AllAlike(s.buffer, Recent(all), now)
  }

  lemma TimePasses(s: Store, all: Archive, now: int, later: int)
    requires now <= later && Shows(s, all, now)
    ensures Shows(s, Sweep(all, later), later) && NoneExpired(Sweep(all, later), later)
  {
    var us := Recent(Sweep(all, later));
    forall j | 0 <= j < |s.buffer| ensures Alike(s.buffer[j], us[j], later) {
      assert us[j] == SweepOne(Recent(all)[j], later);
    }
  }

  /** Expiring some of the requests that are past their time changes nothing that is shown. */
  lemma TouchShows(s: Store, all: Archive, id: nat, now: int)
    requires Consistent(s) && Shows(s, all, now)
    ensures Shows(Touch(s, id, now), all, now)
  {
    TouchKeeps(s, id, now);
    forall j | 0 <= j < |s.buffer| ensures Alike(Touch(s, id, now).buffer[j], Recent(all)[j], now) {
    }
  }

  lemma ExpireAllShows(s: Store, all: Archive, rs: seq<Request>, now: int)
    requires Consistent(s) && Shows(s, all, now)
    requires DistinctIds(rs) && forall r :: r in rs ==> r in s.buffer
    ensures Shows(ExpireAll(s, rs, now), all, now)
  {
    ExpireAllKeeps(s, rs, now);
    var s' := ExpireAll(s, rs, now);
    forall j | 0 <= j < |s'.buffer| ensures Alike(s'.buffer[j], Recent(all)[j], now) {
      assert s'.buffer[j] == Swept(s, rs, now, j);
    }
  }

  lemma PendingAlike(r: Request, u: Request, now: int)
    requires Alike(r, u, now) && !IsExpired(u, now)
    ensures u.status.Pending? ==> r == u
    ensures u.status.Pending? <==> r.status.Pending? && !IsExpired(r, now)
  {
  }

  lemma {:induction false} PendingAgrees(rs: seq<Request>, us: seq<Request>, tenant: string, now: int)
    requires AllAlike(rs, us, now) && NoneExpired(us, now)
    ensures Live(PendingOf(rs, tenant), now) == PendingOf(us, tenant)
  {
    if rs != [] {
      PendingAlike(rs[0], us[0], now);
      PendingAgrees(rs[1..], us[1..], tenant, now);
    }
  }

  lemma CreateShows(s: Store, all: Archive, r: Request, now: int)
    requires LastCreated(s) && Shows(s, all, now) && r.id == |all|
    ensures Shows(Put(s, r).(created := s.created + 1), all + [r], now)
  {
    PutNew(s, r);
    assert Recent(all + [r]) == if |all| < BUFFER_MAX then Recent(all) + [r] else Recent(all)[1..] + [r];
  }

  lemma ChangesAgree(r: Request, u: Request, c: Change, now: int)
    requires Alike(r, u, now) && !IsExpired(r, now) && !IsExpired(u, now)
    ensures Changed(r, c, now) == Changed(u, c, now)
    ensures Changed(r, c, now).Ok? ==> Changed(r, c, now).value.id == r.id
  {
  }

  lemma PutShows(s: Store, all: Archive, w: Request, now: int)
    requires LastCreated(s) && Shows(s, all, now) && Oldest(all) <= w.id < |all|
    ensures Shows(Put(s, w), all[w.id := w], now)
  {
    var j := w.id - Oldest(all);
    PutInPlace(s, w, j);
    assert Recent(all[w.id := w]) == Recent(all)[j := w];
  }

  /** Where a look-up finds a request that is still remembered. */
  lemma FoundAlike(t: Store, all: Archive, id: nat, now: int)
    requires LastCreated(t) && Shows(t, all, now)
    ensures Find(t.buffer, id) < |t.buffer| <==> Oldest(all) <= id < |all|
    ensures Oldest(all) <= id < |all| ==> Alike(t.buffer[Find(t.buffer, id)], all[id], now)
  {
    FindLast(t, id);
    if Oldest(all) <= id < |all| {
      var j := id - Oldest(all);
      assert Recent(all)[j] == all[id];
      assert Alike(t.buffer[j], Recent(all)[j], now);
    }
  }

  /** What a look-up finds after the lazy check, against the swept archive. */
  lemma LookUpAgrees(s: Store, all: Archive, id: nat, now: int)
    requires Consistent(s) && Shows(s, all, now)
    ensures var t := Touch(s, id, now);
            && Consistent(t) && Shows(t, all, now)
            && (Find(t.buffer, id) < |t.buffer| <==> Oldest(all) <= id < |all|)
            && (Oldest(all) <= id < |all| ==>
                  var r := t.buffer[Find(t.buffer, id)];
                  !IsExpired(r, now) && Alike(r, all[id], now))
  {
    TouchShows(s, all, id, now);
    TouchKeeps(s, id, now);
    FindLast(s, id);
    FindLast(Touch(s, id, now), id);
    FoundAlike(Touch(s, id, now), all, id, now);
  }

  /** The same answer up to the moment of expiry, and the same picture afterwards. */
  ghost predicate Matches(actual: (Store, Answer), reference: (Archive, Answer), now: int) {
    Shows(actual.0, reference.0, now) && MaskedAnswer(actual.1) == MaskedAnswer(reference.1)
  }

  lemma ConcludeRefines(t: Store, all: Archive, id: nat, result: Result<Request>, now: int)
    requires Consistent(t) && Shows(t, all, now)
    requires result.Ok? ==> Oldest(all) <= id < |all| && result.value.id == id
    ensures Matches(Conclude(t, result), Decide(all, id, result), now)
  {
    if result.Ok? {
      PutShows(t, all, result.value, now);
    }
  }

  lemma ModifyRefines(s: Store, all: Archive, id: nat, c: Change, now: int)
    requires Consistent(s) && Shows(s, all, now) && NoneExpired(all, now)
    ensures Matches(Apply(s, Modify(id, c), now), ActSwept(all, Modify(id, c), now), now)
  {
    LookUpAgrees(s, all, id, now);
    var t := Touch(s, id, now);
    if Oldest(all) <= id < |all| {
      var r := t.buffer[Find(t.buffer, id)];
      ChangesAgree(r, all[id], c, now);
      ConcludeRefines(t, all, id, Changed(r, c, now), now);
    } else {
      ConcludeRefines(t, all, id, Err(NotFound), now);
    }
  }

  lemma ListRefines(s: Store, all: Archive, tenant: string, now: int)
    requires Consistent(s) && Shows(s, all, now) && NoneExpired(all, now)
    ensures Matches(Apply(s, GetPending(tenant), now), ActSwept(all, GetPending(tenant), now), now)
  {
    PendingDistinct(s, tenant);
    ExpireAllShows(s, all, PendingOf(s.buffer, tenant), now);
    PendingAgrees(s.buffer, Recent(all), tenant, now);
  }

  lemma ReadRefines(s: Store, all: Archive, id: nat, now: int)
    requires Consistent(s) && Shows(s, all, now) && NoneExpired(all, now)
    ensures Matches(Apply(s, GetById(id), now), ActSwept(all, GetById(id), now), now)
  {
    LookUpAgrees(s, all, id, now);
  }

  lemma StepRefines(s: Store, all: Archive, op: Operation, now: int, later: int)
    requires Consistent(s) && Shows(s, all, now) && now <= later
    ensures Matches(Apply(s, op, later), Act(all, op, later), later)
  {
    TimePasses(s, all, now, later);
    var swept := Sweep(all, later);
    match op
    case Create(input) => CreateShows(s, swept, NewRequest(s.created, input, later), later);
    case GetById(id) => ReadRefines(s, swept, id, later);
    case GetPending(tenant) => ListRefines(s, swept, tenant, later);
    case Modify(id, c) => ModifyRefines(s, swept, id, c, later);
  }

  /** The clock never goes back. */
  ghost predicate InTime(calls: seq<Call>, from: int) {
    forall j :: 0 <= j < |calls| ==>
      from <= calls[j].now && forall k :: j < k < |calls| ==> calls[j].now <= calls[k].now
  }

  function EndTime(calls: seq<Call>, from: int): int {
    if calls == [] then from else Last(calls).now
  }

  /**
   Over every run, the buffer holds the last min(n, 500) requests created, in order, each as
   the archive shows it.
   */
  lemma {:induction false} StoreRefinesArchive(s: Store, all: Archive, calls: seq<Call>, now: int)
    requires Consistent(s) && Shows(s, all, now) && InTime(calls, now)
    ensures Consistent(Run(s, calls)) && Shows(Run(s, calls), Perform(all, calls), EndTime(calls, now))
    decreases |calls|
  {
    if calls != [] {
      var c := calls[0];
      StepRefines(s, all, c.op, now, c.now);
      ApplyKeeps(s, c.op, c.now);
      assert EndTime(calls, now) == EndTime(calls[1..], c.now);
      StoreRefinesArchive(Apply(s, c.op, c.now).0, Act(all, c.op, c.now).0, calls[1..], c.now);
    }
  }

  /** And after every run, every further call is answered as the archive answers it. */
  lemma AnswersAgree(calls: seq<Call>, start: int, op: Operation, later: int)
    requires InTime(calls, start) && EndTime(calls, start) <= later
    ensures Matches(Apply(Run(EMPTY, calls), op, later), Act(Perform([], calls), op, later), later)
  {
    StoreRefinesArchive(EMPTY, [], calls, start);
    StepRefines(Run(EMPTY, calls), Perform([], calls), op, EndTime(calls, start), later);
  }

  // ---------------------------------------------------------------- the look-up as it is written

  /**
   `getById` and `expire` as they call each other in the program, to a bounded depth: a
   result, or None when the depth does not suffice.
   */
  function GetByIdAsWritten(depth: nat, s: Store, id: nat, now: int): Option<(Store, Option<Request>)> {
    var i := Find(s.buffer, id);
    if depth == 0 then None
    else if i == |s.buffer| then Some((s, None))
    else if !IsExpired(s.buffer[i], now) then Some((s, Some(s.buffer[i])))
    else
      match ExpireAsWritten(depth - 1, s, id, now)
      case None => None
      case Some((s', r)) => Some((s', Some(r)))
  }

  function ExpireAsWritten(depth: nat, s: Store, id: nat, now: int): Option<(Store, Request)> {
    if depth == 0 then None
    else
      match GetByIdAsWritten(depth - 1, s, id, now)
      case Some((s', Some(r))) => Some((Put(s', Expiry(r, now)), Expiry(r, now)))
      case _ => None
  }

  lemma {:induction false} NoDepthSuffices(depth: nat, s: Store, id: nat, now: int)
    requires Find(s.buffer, id) < |s.buffer| && IsExpired(s.buffer[Find(s.buffer, id)], now)
    ensures GetByIdAsWritten(depth, s, id, now).None?
  {
    if depth > 1 {
      NoDepthSuffices(depth - 2, s, id, now);
    }
  }

  /** The look-up returns exactly when it does not meet a request past its time. */
  lemma LookUpReturnsExact(s: Store, id: nat, now: int)
    ensures (exists depth :: GetByIdAsWritten(depth, s, id, now).Some?)
       <==> !(Find(s.buffer, id) < |s.buffer| && IsExpired(s.buffer[Find(s.buffer, id)], now))
    ensures (exists depth :: GetByIdAsWritten(depth, s, id, now).Some?) ==> Touch(s, id, now) == s
  {
    if Find(s.buffer, id) < |s.buffer| && IsExpired(s.buffer[Find(s.buffer, id)], now) {
      forall depth ensures GetByIdAsWritten(depth, s, id, now).None? {
        NoDepthSuffices(depth, s, id, now);
      }
    } else {
      OneLevelSuffices(s, id, now);
    }
  }

  lemma OneLevelSuffices(s: Store, id: nat, now: int)
    requires !(Find(s.buffer, id) < |s.buffer| && IsExpired(s.buffer[Find(s.buffer, id)], now))
    ensures GetByIdAsWritten(1, s, id, now).Some?
  {
  }
}
