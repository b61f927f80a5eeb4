/**
 What every run of the approval store keeps: quorum, the order of a request's versions, and
 what the database holds when upserts land late, out of order, or never.
 */
module ApprovalHistory {
  import opened Common
  import opened Approvals

  /** A request needs at least one approval even when it asks for fewer. */
  function Needed(r: Request): int {
    if r.required >= 1 then r.required else 1
  }

  /** Approvers are distinct, and there are enough exactly when the request was approved. */
  ghost predicate Sound(r: Request) {
    && (forall i, j :: 0 <= i < j < |r.approvals| ==> r.approvals[i].approver != r.approvals[j].approver)
    && (|r.approvals| >= Needed(r) <==> r.status.Approved? || r.status.Revoked?)
  }

  /** `b` may be a later version of `a`. */
  ghost predicate Later(a: Request, b: Request) {
    && a.id == b.id && a.subject == b.subject && a.required == b.required
    && a.createdAt == b.createdAt && a.expiresAt == b.expiresAt
    && a.approvals <= b.approvals
    && (a == b || a.status.Pending? || (a.status.Approved? && b.status.Revoked? && a.approvals == b.approvals))
  }

  /** The last version written of a request. */
  function Newest(writes: seq<Request>, id: nat): Option<Request> {
    if writes == [] then None
    else if Last(writes).id == id then Some(Last(writes))
    else Newest(writes[..|writes| - 1], id)
  }

  lemma {:induction false} NewestIsLast(writes: seq<Request>, id: nat)
    ensures Newest(writes, id).None? <==> forall w :: w in writes ==> w.id != id
    ensures Newest(writes, id).Some? ==> Newest(writes, id).value.id == id && Newest(writes, id).value in writes
  {
    if writes != [] {
      NewestIsLast(writes[..|writes| - 1], id);
      assert writes == writes[..|writes| - 1] + [Last(writes)];
    }
  }

  // ---------------------------------------------------------------- the buffer's identifiers

  /** The buffer holds the last requests created, at most 500, in the order of creation. */
  ghost predicate LastCreated(s: Store) {
    && |s.buffer| == (if s.created < 500 then s.created else 500)
    && forall j :: 0 <= j < |s.buffer| ==> s.buffer[j].id == s.created - |s.buffer| + j
  }

  lemma FindLast(s: Store, id: nat)
    requires LastCreated(s)
    ensures Find(s.buffer, id) ==
            if s.created - |s.buffer| <= id < s.created then id - (s.created - |s.buffer|) else |s.buffer|
  {
    if s.created - |s.buffer| <= id < s.created {
      assert s.buffer[id - (s.created - |s.buffer|)].id == id;
    }
  }

  lemma PutInPlace(s: Store, w: Request, j: nat)
    requires LastCreated(s) && j < |s.buffer| && s.buffer[j].id == w.id
    ensures Put(s, w).buffer == s.buffer[j := w] && LastCreated(Put(s, w))
  {
    FindLast(s, w.id);
  }

  lemma PutNew(s: Store, w: Request)
    requires LastCreated(s) && w.id == s.created
    ensures Put(s, w).buffer == if s.created < BUFFER_MAX then s.buffer + [w] else s.buffer[1..] + [w]
    ensures LastCreated(Put(s, w).(created := s.created + 1))
  {
    FindLast(s, w.id);
    if s.created >= BUFFER_MAX {
      assert (s.buffer + [w])[1..] == s.buffer[1..] + [w];
    }
  }

  // ---------------------------------------------------------------- the invariant

  ghost predicate Ordered(writes: seq<Request>) {
    forall i, j :: 0 <= i < j < |writes| && writes[i].id == writes[j].id ==> Later(writes[i], writes[j])
  }

  ghost predicate Consistent(s: Store) {
    && LastCreated(s)
    && (forall w :: w in s.issued ==> Sound(w) && w.id < s.created)
    && Ordered(s.issued)
    && (forall r :: r in s.buffer ==> Newest(s.issued, r.id) == Some(r))
  }

  lemma NewestIsLatest(writes: seq<Request>, r: Request, w: Request)
    requires Ordered(writes) && w in writes && Newest(writes, w.id) == Some(r)
    ensures Later(w, r)
    decreases |writes|
  {
    var n := |writes| - 1;
    if writes[n] != r {
      assert w in writes[..n];
      NewestIsLatest(writes[..n], r, w);
    } else if w != r {
      assert w in writes[..n];
    }
  }

  lemma WriteKeepsOrder(writes: seq<Request>, r: Request, w: Request)
    requires Ordered(writes) && Newest(writes, r.id) == Some(r) && Later(r, w)
    ensures Ordered(writes + [w])
  {
    forall i | 0 <= i < |writes| && writes[i].id == w.id ensures Later(writes[i], w) {
      NewestIsLatest(writes, r, writes[i]);
    }
  }

  /** Writing a later version of a buffered request keeps the invariant. */
  lemma VersionKeeps(s: Store, j: nat, w: Request)
    requires Consistent(s) && j < |s.buffer| && Later(s.buffer[j], w) && Sound(w)
    ensures Consistent(Put(s, w)) && Put(s, w).buffer == s.buffer[j := w]
  {
    PutInPlace(s, w, j);
    WriteKeepsOrder(s.issued, s.buffer[j], w);
    NewestIsLast(s.issued, w.id);
    forall r | r in s.buffer[j := w] ensures Newest(s.issued + [w], r.id) == Some(r) {
      assert (s.issued + [w])[..|s.issued|] == s.issued;
      if r.id == w.id {
        var k :| 0 <= k < |s.buffer| && s.buffer[j := w][k] == r;
        assert k == j;
      }
    }
  }

  lemma CreateKeeps(s: Store, w: Request)
    requires Consistent(s) && w.id == s.created && Sound(w)
    ensures Consistent(Put(s, w).(created := s.created + 1))
  {
    PutNew(s, w);
    assert Ordered(s.issued + [w]) by {
      assert forall i :: 0 <= i < |s.issued| ==> s.issued[i] in s.issued;
    }
    forall r | r in Put(s, w).buffer ensures Newest(s.issued + [w], r.id) == Some(r) {
    }
  }

  lemma BufferedIsSound(s: Store, j: nat)
    requires Consistent(s) && j < |s.buffer|
    ensures s.buffer[j] in s.issued && Sound(s.buffer[j])
  {
    NewestIsLast(s.issued, s.buffer[j].id);
  }

  lemma ChangeIsLater(r: Request, c: Change, now: int)
    requires Sound(r) && Changed(r, c, now).Ok?
    ensures Later(r, Changed(r, c, now).value) && Sound(Changed(r, c, now).value)
  {
  }

  lemma ExpireKeeps(s: Store, j: nat, now: int)
    requires Consistent(s) && j < |s.buffer| && s.buffer[j].status.Pending?
    ensures Consistent(Expire(s, s.buffer[j].id, now))
    ensures var w := Expiry(s.buffer[j], now);
            Expire(s, s.buffer[j].id, now) == s.(buffer := s.buffer[j := w], issued := s.issued + [w])
  {
    BufferedIsSound(s, j);
    FindLast(s, s.buffer[j].id);
    VersionKeeps(s, j, Expiry(s.buffer[j], now));
  }

  /** What the buffer shows at index `j` once the listed requests were expired. */
  function Swept(s: Store, rs: seq<Request>, now: int, j: nat): Request
    requires j < |s.buffer|
  {
    if s.buffer[j] in rs && IsExpired(s.buffer[j], now) then Expiry(s.buffer[j], now) else s.buffer[j]
  }

  ghost predicate DistinctIds(rs: seq<Request>) {
    forall i, j :: 0 <= i < j < |rs| ==> rs[i].id != rs[j].id
  }

  ghost predicate SweptStore(s: Store, rs: seq<Request>, now: int, s': Store) {
    && Consistent(s') && s'.created == s.created && |s'.buffer| == |s.buffer|
    && (forall j :: 0 <= j < |s.buffer| ==> s'.buffer[j] == Swept(s, rs, now, j))
    && s.issued <= s'.issued && (forall w :: w in s'.issued[|s.issued|..] ==> w.status.Expired?)
  }

  lemma SweepOneMore(s: Store, rs: seq<Request>, now: int, s1: Store, j: nat)
    requires SweptStore(s, rs, now, s1) && j < |s.buffer| && s.buffer[j] !in rs && IsExpired(s.buffer[j], now)
    requires LastCreated(s)
    ensures SweptStore(s, rs + [s.buffer[j]], now, Expire(s1, s.buffer[j].id, now))
  {
    assert s1.buffer[j] == Swept(s, rs, now, j) == s.buffer[j];
    ExpireKeeps(s1, j, now);
    var s2 := Expire(s1, s.buffer[j].id, now);
    forall k | 0 <= k < |s.buffer| ensures s2.buffer[k] == Swept(s, rs + [s.buffer[j]], now, k) {
      if k != j {
        assert s2.buffer[k] == s1.buffer[k] == Swept(s, rs, now, k);
        assert s.buffer[k].id != s.buffer[j].id;
      }
    }
  }

  lemma {:induction false} ExpireAllKeeps(s: Store, rs: seq<Request>, now: int)
    requires Consistent(s) && DistinctIds(rs) && (forall r :: r in rs ==> r in s.buffer)
    ensures SweptStore(s, rs, now, ExpireAll(s, rs, now))
    decreases |rs|
  {
    if rs != [] {
      var n := |rs| - 1;
      ExpireAllKeeps(s, rs[..n], now);
      assert rs == rs[..n] + [rs[n]];
      if IsExpired(rs[n], now) {
        var j :| 0 <= j < |s.buffer| && s.buffer[j] == rs[n];
        SweepOneMore(s, rs[..n], now, ExpireAll(s, rs[..n], now), j);
      }
    }
  }

  lemma {:induction false} FilterKeepsDistinct(rs: seq<Request>, keep: Request -> bool)
    requires DistinctIds(rs)
    ensures DistinctIds(Filter(rs, keep))
  {
    if rs != [] {
      FilterKeepsDistinct(rs[1..], keep);
      assert forall r :: r in Filter(rs[1..], keep) ==> r in rs[1..];
      assert forall r :: r in rs[1..] ==> r.id != rs[0].id;
    }
  }

  lemma PendingDistinct(s: Store, tenant: string)
    requires LastCreated(s)
    ensures DistinctIds(PendingOf(s.buffer, tenant))
    ensures forall r :: r in PendingOf(s.buffer, tenant) ==> r in s.buffer
  {
    FilterKeepsDistinct(s.buffer, (r: Request) => r.status.Pending? && OfTenant(r, tenant));
  }

  lemma TouchKeeps(s: Store, id: nat, now: int)
    requires Consistent(s)
    ensures Consistent(Touch(s, id, now)) && Touch(s, id, now).created == s.created
    ensures |Touch(s, id, now).buffer| == |s.buffer| && s.issued <= Touch(s, id, now).issued
    ensures forall w :: w in Touch(s, id, now).issued[|s.issued|..] ==> w.status.Expired?
    ensures forall j :: 0 <= j < |s.buffer| ==>
              (Touch(s, id, now).buffer[j] ==
               if s.buffer[j].id == id && IsExpired(s.buffer[j], now) then Expiry(s.buffer[j], now) else s.buffer[j])
  {
    FindLast(s, id);
    var i := Find(s.buffer, id);
    if i < |s.buffer| && IsExpired(s.buffer[i], now) {
      ExpireKeeps(s, i, now);
    }
  }

  lemma ApplyKeeps(s: Store, op: Operation, now: int)
    requires Consistent(s)
    ensures Consistent(Apply(s, op, now).0)
    ensures s.issued <= Apply(s, op, now).0.issued
  {
    match op
    case Create(input) => CreateKeeps(s, NewRequest(s.created, input, now));
    case GetById(id) => TouchKeeps(s, id, now);
    case GetPending(tenant) =>
      PendingDistinct(s, tenant);
      ExpireAllKeeps(s, PendingOf(s.buffer, tenant), now);
    case Modify(id, c) => ModifyKeeps(s, id, c, now);
  }

  lemma ModifyKeeps(s: Store, id: nat, c: Change, now: int)
    requires Consistent(s)
    ensures var s' := Apply(s, Modify(id, c), now).0; Consistent(s') && s.issued <= s'.issued
  {
    TouchKeeps(s, id, now);
    var s1 := Touch(s, id, now);
    var i := Find(s1.buffer, id);
    if i < |s1.buffer| && Changed(s1.buffer[i], c, now).Ok? {
      BufferedIsSound(s1, i);
      ChangeIsLater(s1.buffer[i], c, now);
      VersionKeeps(s1, i, Changed(s1.buffer[i], c, now).value);
    }
  }

  lemma {:induction false} RunKeeps(s: Store, calls: seq<Call>)
    requires Consistent(s)
    ensures Consistent(Run(s, calls)) && s.issued <= Run(s, calls).issued
    decreases |calls|
  {
    if calls != [] {
      ApplyKeeps(s, calls[0].op, calls[0].now);
      RunKeeps(Apply(s, calls[0].op, calls[0].now).0, calls[1..]);
    }
  }

  /**
   Over every run: any two versions ever written of one request have distinct approvers and
   a quorum exactly when approved; approval lists only grow; a denied, revoked or expired
   version is the last one.
   */
  lemma QuorumOverRuns(calls: seq<Call>, i: nat, j: nat)
    requires i < j < |Run(EMPTY, calls).issued|
    requires Run(EMPTY, calls).issued[i].id == Run(EMPTY, calls).issued[j].id
    ensures var a, b := Run(EMPTY, calls).issued[i], Run(EMPTY, calls).issued[j];
            && Sound(a) && Sound(b) && a.approvals <= b.approvals
            && (a.status in {Denied, Revoked, Expired} ==> b == a)
            && (a.status.Approved? ==> b == a || (b.status.Revoked? && b.approvals == a.approvals))
  {
    RunKeeps(EMPTY, calls);
  }

  // ---------------------------------------------------------------- the program's own quorum test

  ghost predicate PendingLacksQuorum(writes: seq<Request>) {
    forall w :: w in writes && w.status.Pending? ==> !HasReachedQuorum(w)
  }

  ghost predicate AsksForApprovals(op: Operation) {
    op.Create? ==> RequiredBy(op.input) >= 1
  }

  lemma ApplyQuorum(s: Store, op: Operation, now: int)
    requires Consistent(s)
    ensures PendingLacksQuorum(Apply(s, op, now).0.issued) <==> PendingLacksQuorum(s.issued) && AsksForApprovals(op)
  {
    match op
    case Create(input) =>
      assert NewRequest(s.created, input, now) in [NewRequest(s.created, input, now)];
    case GetById(id) =>
      TouchKeeps(s, id, now);
      OnlyExpiries(s.issued, Touch(s, id, now).issued);
    case GetPending(tenant) =>
      PendingDistinct(s, tenant);
      ExpireAllKeeps(s, PendingOf(s.buffer, tenant), now);
      OnlyExpiries(s.issued, ExpireAll(s, PendingOf(s.buffer, tenant), now).issued);
    case Modify(id, c) => ModifyQuorum(s, id, c, now);
  }

  lemma ModifyQuorum(s: Store, id: nat, c: Change, now: int)
    requires Consistent(s)
    ensures PendingLacksQuorum(Apply(s, Modify(id, c), now).0.issued) <==> PendingLacksQuorum(s.issued)
  {
    TouchKeeps(s, id, now);
    var s1 := Touch(s, id, now);
    OnlyExpiries(s.issued, s1.issued);
    var i := Find(s1.buffer, id);
    if i < |s1.buffer| && Changed(s1.buffer[i], c, now).Ok? {
      BufferedIsSound(s1, i);
      ChangeIsLater(s1.buffer[i], c, now);
      VersionQuorum(s1, i, Changed(s1.buffer[i], c, now).value);
    }
  }

  lemma VersionQuorum(s: Store, j: nat, w: Request)
    requires j < |s.buffer| && s.buffer[j] in s.issued && Sound(s.buffer[j])
    requires Later(s.buffer[j], w) && Sound(w)
    ensures PendingLacksQuorum(s.issued + [w]) <==> PendingLacksQuorum(s.issued)
  {
  }

  lemma OnlyExpiries(before: seq<Request>, after: seq<Request>)
    requires before <= after && forall w :: w in after[|before|..] ==> w.status.Expired?
    ensures PendingLacksQuorum(after) <==> PendingLacksQuorum(before)
  {
    assert after == before + after[|before|..];
  }

  /**
   The program's own test never finds a quorum on a pending request exactly when every
   request created asks for at least one approval.
   */
  lemma {:induction false} QuorumTestExact(s: Store, calls: seq<Call>)
    requires Consistent(s)
    ensures PendingLacksQuorum(Run(s, calls).issued)
       <==> PendingLacksQuorum(s.issued) && forall k :: 0 <= k < |calls| ==> AsksForApprovals(calls[k].op)
    decreases |calls|
  {
    if calls != [] {
      ApplyQuorum(s, calls[0].op, calls[0].now);
      ApplyKeeps(s, calls[0].op, calls[0].now);
      QuorumTestExact(Apply(s, calls[0].op, calls[0].now).0, calls[1..]);
      assert forall k :: 1 <= k < |calls| ==> calls[k] == calls[1..][k - 1];
      assert (forall k :: 0 <= k < |calls[1..]| ==> AsksForApprovals(calls[1..][k].op))
          == (forall k :: 1 <= k < |calls| ==> AsksForApprovals(calls[k].op));
    }
  }

  // ---------------------------------------------------------------- upserts that land late

  /** INSERT, or ON CONFLICT (id) DO UPDATE of the five columns that change. */
  function Upsert(table: map<nat, Request>, w: Request): map<nat, Request> {
    if w.id !in table then table[w.id := w]
    else
      table[w.id := table[w.id].(status := w.status, approvals := w.approvals, resolvedAt := w.resolvedAt,
                                 resolvedBy := w.resolvedBy, reason := w.reason)]
  }

  function Land(writes: seq<Request>): map<nat, Request> {
    if writes == [] then map[] else Upsert(Land(writes[..|writes| - 1]), Last(writes))
  }

  /** The columns an upsert skips never change between versions. */
  ghost predicate SameIdentity(writes: seq<Request>) {
    forall a, b :: a in writes && b in writes && a.id == b.id ==>
      a.subject == b.subject && a.required == b.required && a.createdAt == b.createdAt && a.expiresAt == b.expiresAt
  }

  lemma OrderedKeepsIdentity(writes: seq<Request>)
    requires Ordered(writes)
    ensures SameIdentity(writes)
  {
    forall a, b | a in writes && b in writes && a.id == b.id ensures Later(a, b) || Later(b, a) {
      var i :| 0 <= i < |writes| && writes[i] == a;
      var j :| 0 <= j < |writes| && writes[j] == b;
      assert i == j ==> a == b;
    }
  }

  lemma {:induction false} LandedRows(landed: seq<Request>, id: nat)
    requires SameIdentity(landed)
    ensures Newest(landed, id) == if id in Land(landed) then Some(Land(landed)[id]) else None
  {
    if landed != [] {
      var front := landed[..|landed| - 1];
      assert landed == front + [Last(landed)];
      LandedRows(front, id);
      NewestIsLast(front, id);
    }
  }

  /**
   Whichever of a run's upserts land, in whatever order and however often, a row is the
   version whose upsert landed last, whole.
   */
  lemma RowsAreWholeVersions(calls: seq<Call>, landed: seq<Request>, id: nat)
    requires forall w :: w in landed ==> w in Run(EMPTY, calls).issued
    ensures Newest(landed, id) == if id in Land(landed) then Some(Land(landed)[id]) else None
    ensures id in Land(landed) ==> Land(landed)[id] in Run(EMPTY, calls).issued
  {
    RunKeeps(EMPTY, calls);
    OrderedKeepsIdentity(Run(EMPTY, calls).issued);
    LandedRows(landed, id);
    NewestIsLast(landed, id);
  }

  ghost predicate Written(writes: seq<Request>, id: nat) {
    exists w :: w in writes && w.id == id
  }

  ghost predicate AllWritten(s: Store) {
    forall id :: 0 <= id < s.created ==> Written(s.issued, id)
  }

  lemma ApplyWrites(s: Store, op: Operation, now: int)
    requires Consistent(s) && AllWritten(s)
    ensures AllWritten(Apply(s, op, now).0)
  {
    ApplyKeeps(s, op, now);
    var s' := Apply(s, op, now).0;
    if op.Create? {
      assert NewRequest(s.created, op.input, now) in s'.issued && Written(s'.issued, s.created);
    } else {
      CreatedStays(s, op, now);
    }
    forall id | 0 <= id < s.created ensures Written(s'.issued, id) {
      assert Written(s.issued, id);
      var w :| w in s.issued && w.id == id;
      assert w in s'.issued;
    }
  }

  lemma CreatedStays(s: Store, op: Operation, now: int)
    requires Consistent(s) && !op.Create?
    ensures Apply(s, op, now).0.created == s.created
  {
    match op
    case GetPending(tenant) =>
      PendingDistinct(s, tenant);
      ExpireAllKeeps(s, PendingOf(s.buffer, tenant), now);
    case _ =>
  }

  lemma {:induction false} RunWrites(s: Store, calls: seq<Call>)
    requires Consistent(s) && AllWritten(s)
    ensures AllWritten(Run(s, calls))
    decreases |calls|
  {
    if calls != [] {
      ApplyWrites(s, calls[0].op, calls[0].now);
      ApplyKeeps(s, calls[0].op, calls[0].now);
      RunWrites(Apply(s, calls[0].op, calls[0].now).0, calls[1..]);
    }
  }

  /**
   When all of them land in the order of issue, every request ever created, evicted ones
   included, has its newest version for a row.
   */
  lemma InOrderRowsAreNewest(calls: seq<Call>, id: nat)
    requires id < Run(EMPTY, calls).created
    ensures var s := Run(EMPTY, calls);
            id in Land(s.issued) && Newest(s.issued, id) == Some(Land(s.issued)[id])
  {
    RunKeeps(EMPTY, calls);
    RunWrites(EMPTY, calls);
    var s := Run(EMPTY, calls);
    OrderedKeepsIdentity(s.issued);
    LandedRows(s.issued, id);
    NewestIsLast(s.issued, id);
    assert Written(s.issued, id);
  }

  /** For the requests still buffered, that is the version in the buffer. */
  lemma InOrderRowsMatchBuffer(calls: seq<Call>, j: nat)
    requires j < |Run(EMPTY, calls).buffer|
    ensures var s := Run(EMPTY, calls);
            s.buffer[j].id in Land(s.issued) && Land(s.issued)[s.buffer[j].id] == s.buffer[j]
  {
    RunKeeps(EMPTY, calls);
    var s := Run(EMPTY, calls);
    OrderedKeepsIdentity(s.issued);
    LandedRows(s.issued, s.buffer[j].id);
    assert s.buffer[j] in s.buffer;
  }
}
