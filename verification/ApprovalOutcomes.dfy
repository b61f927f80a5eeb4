/**
 What a caller of the approval store can rely on: when each operation succeeds, what it
 leaves behind, and how long that lasts.
 */
module ApprovalOutcomes {
  import opened Common
  import opened Approvals
  import opened ApprovalHistory
  import opened ApprovalRefinement

  /** What a look-up answers. */
  function Seen(s: Store, id: nat, now: int): Answer {
    Apply(s, GetById(id), now).1
  }

  function After(s: Store, id: nat, change: Change, now: int): Store {
    Apply(s, Modify(id, change), now).0
  }

  function Reply(s: Store, id: nat, change: Change, now: int): Answer {
    Apply(s, Modify(id, change), now).1
  }

  lemma {:induction false} FindByPlace(buffer: seq<Request>, id: nat, i: nat)
    requires i < |buffer| && buffer[i].id == id && forall k :: 0 <= k < i ==> buffer[k].id != id
    ensures Find(buffer, id) == i
  {
  }

  /** A version just put is what a look-up finds until it is past its time. */
  lemma PutIsSeen(s: Store, r: Request, later: int)
    requires Find(s.buffer, r.id) < |s.buffer| && !IsExpired(r, later)
    ensures Seen(Put(s, r), r.id, later) == One(r)
  {
    FindAfterAppend(s.buffer, r);
  }

  // ---------------------------------------------------------------- deny and revoke

  /** A request can be revoked exactly when a look-up shows it approved. */
  lemma RevokeExact(s: Store, id: nat, who: string, why: string, now: int)
    ensures Reply(s, id, Revoke(who, why), now).One? <==>
              Seen(s, id, now).One? && Seen(s, id, now).request.status == Approved
    ensures Reply(s, id, Revoke(who, why), now).One? ==>
              var r, u := Seen(s, id, now).request, Reply(s, id, Revoke(who, why), now).request;
              && u.status == Revoked && u.resolvedAt == Some(now) && u.resolvedBy == Some(who)
              && u.reason == Some("REVOKED: " + why)
              && SameRequest(r, u) && u.approvals == r.approvals
              && forall later :: Seen(After(s, id, Revoke(who, why), now), id, later) == One(u)
    ensures !Reply(s, id, Revoke(who, why), now).One? ==>
              After(s, id, Revoke(who, why), now) == Apply(s, GetById(id), now).0
  {
    if Reply(s, id, Revoke(who, why), now).One? {
      forall later ensures Seen(After(s, id, Revoke(who, why), now), id, later)
                        == One(Reply(s, id, Revoke(who, why), now).request)
      {
        PutIsSeen(Touch(s, id, now), Reply(s, id, Revoke(who, why), now).request, later);
      }
    }
  }

  /** A request can be denied exactly when a look-up shows it pending. */
  lemma DenyExact(s: Store, id: nat, who: string, why: string, now: int)
    ensures Reply(s, id, Deny(who, why), now).One? <==>
              Seen(s, id, now).One? && Seen(s, id, now).request.status == Pending
    ensures Reply(s, id, Deny(who, why), now).One? ==>
              var r, u := Seen(s, id, now).request, Reply(s, id, Deny(who, why), now).request;
              && u.status == Denied && u.resolvedAt == Some(now) && u.resolvedBy == Some(who)
              && u.reason == Some(why)
              && SameRequest(r, u) && u.approvals == r.approvals
              && forall later :: Seen(After(s, id, Deny(who, why), now), id, later) == One(u)
    ensures !Reply(s, id, Deny(who, why), now).One? ==>
              After(s, id, Deny(who, why), now) == Apply(s, GetById(id), now).0
  {
    if Reply(s, id, Deny(who, why), now).One? {
      forall later ensures Seen(After(s, id, Deny(who, why), now), id, later)
                        == One(Reply(s, id, Deny(who, why), now).request)
      {
        PutIsSeen(Touch(s, id, now), Reply(s, id, Deny(who, why), now).request, later);
      }
    }
  }

  /** Everything that no operation may change. */
  predicate SameRequest(r: Request, u: Request) {
    && r.id == u.id && r.subject == u.subject && r.required == u.required
    && r.createdAt == u.createdAt && r.expiresAt == u.expiresAt
  }

  // ---------------------------------------------------------------- approve

  predicate NewApprover(r: Request, approver: string) {
    forall a :: a in r.approvals ==> a.approver != approver
  }

  /** An approval succeeds exactly when a look-up shows the request pending and the approver is new. */
  lemma ApproveExact(s: Store, id: nat, approver: string, kind: ActorKind, notes: Option<string>, now: int)
    ensures var c := Approve(approver, kind, notes);
            Reply(s, id, c, now).One? <==>
              && Seen(s, id, now).One? && Seen(s, id, now).request.status == Pending
              && NewApprover(Seen(s, id, now).request, approver)
    ensures var c := Approve(approver, kind, notes);
            Reply(s, id, c, now).One? ==>
              var r, u := Seen(s, id, now).request, Reply(s, id, c, now).request;
              && SameRequest(r, u)
              && u.approvals == r.approvals + [Approval(approver, kind, now, notes)]
              && u.status == (if |u.approvals| >= r.required then Approved else Pending)
              && (u.status == Approved ==>
                    u.resolvedAt == Some(now) && u.resolvedBy == Some(approver)
                    && u.reason == Some("Approved — quorum reached"))
              && (u.status == Pending ==>
                    u.resolvedAt == r.resolvedAt && u.resolvedBy == r.resolvedBy && u.reason == r.reason)
              && forall later :: (u.status == Pending ==> later <= u.expiresAt) ==>
                   Seen(After(s, id, c, now), id, later) == One(u)
    ensures var c := Approve(approver, kind, notes);
            !Reply(s, id, c, now).One? ==> After(s, id, c, now) == Apply(s, GetById(id), now).0
  {
    var c := Approve(approver, kind, notes);
    if Reply(s, id, c, now).One? {
      var u := Reply(s, id, c, now).request;
      forall later | u.status == Pending ==> later <= u.expiresAt
        ensures Seen(After(s, id, c, now), id, later) == One(u)
      {
        PutIsSeen(Touch(s, id, now), u, later);
      }
    }
  }

  /** Why a change is refused: no such request, the wrong state, or the approver was there before. */
  lemma RefusalExact(s: Store, id: nat, c: Change, now: int)
    ensures Reply(s, id, c, now) == Failed(NotFound) <==> Seen(s, id, now) == Missing
    ensures (exists from, to :: Reply(s, id, c, now) == Failed(InvalidTransition(from, to))) <==>
              && Seen(s, id, now).One?
              && Seen(s, id, now).request.status != (if c.Revoke? then Approved else Pending)
    ensures forall from, to :: Reply(s, id, c, now) == Failed(InvalidTransition(from, to)) ==>
              && from == Seen(s, id, now).request.status
              && to == match c case Approve(_, _, _) => Approved case Deny(_, _) => Denied case Revoke(_, _) => Revoked
  {
    if Seen(s, id, now).One? && !CanTransition(Seen(s, id, now).request.status, Target(c)) {
      assert Reply(s, id, c, now) == Failed(InvalidTransition(Seen(s, id, now).request.status, Target(c)));
    }
  }

  // ---------------------------------------------------------------- over runs

  predicate Final(r: Request) {
    r.status in {Denied, Revoked, Expired}
  }

  lemma WrittenFinalStays(s: Store, w: Request, calls: seq<Call>, later: int)
    requires Consistent(s) && w in s.issued && Final(w)
    ensures Seen(Run(s, calls), w.id, later) in {Missing, One(w)}
  {
    RunKeeps(s, calls);
    var t := Run(s, calls);
    var i := Find(t.buffer, w.id);
    if i < |t.buffer| {
      assert t.buffer[i] in t.buffer;
      NewestIsLatest(t.issued, t.buffer[i], w);
    }
  }

  /**
   After a successful revocation or denial, in any reachable store, every later look-up that
   finds the request shows exactly what was answered, whatever was called in between.
   */
  lemma ResolutionLasts(before: seq<Call>, id: nat, c: Change, now: int, calls: seq<Call>, later: int)
    requires !c.Approve? && Reply(Run(EMPTY, before), id, c, now).One?
    ensures var s := Run(EMPTY, before);
            var u := Reply(s, id, c, now).request;
            && u.status == (if c.Revoke? then Revoked else Denied)
            && Seen(Run(After(s, id, c, now), calls), id, later) in {Missing, One(u)}
  {
    RunKeeps(EMPTY, before);
    var s := Run(EMPTY, before);
    ApplyKeeps(s, Modify(id, c), now);
    var u := Reply(s, id, c, now).request;
    assert u in After(s, id, c, now).issued;
    WrittenFinalStays(After(s, id, c, now), u, calls, later);
  }

  // ---------------------------------------------------------------- expiry

  function Hours(risk: Risk): int {
    match risk case Critical => 4 case High => 24 case Moderate => 72 case Low => 168
  }

  /** The last moment at which a request created now is still pending when nobody acts on it. */
  function Deadline(input: Input, now: int): int {
    now + (if input.ttlSeconds.Some? then input.ttlSeconds.value else Hours(input.subject.risk) * 3600) * 1000
  }

  ghost predicate LeftAlone(calls: seq<Call>, id: nat) {
    forall k :: 0 <= k < |calls| && calls[k].op.Modify? ==> calls[k].op.id != id
  }

  ghost predicate ExpiredInTime(r: Request, w: Request, now: int) {
    exists t :: w.expiresAt < t <= now
      && r == w.(status := Expired, resolvedAt := Some(t),
                 reason := Some("Auto-expired: TTL elapsed without resolution"))
  }

  /** The buffer shows the request as it was, or expired since its deadline. */
  ghost predicate Untouched(s: Store, w: Request, now: int) {
    && Consistent(s) && w.id < s.created && w.status.Pending?
    && forall r :: r in s.buffer && r.id == w.id ==> r == w || ExpiredInTime(r, w, now)
  }

  lemma OneMoreUntouched(r: Request, u: Request, w: Request, from: int, now: int)
    requires from <= now && (r == w || ExpiredInTime(r, w, from))
    requires u == r || (IsExpired(r, now) && u == Expiry(r, now))
    ensures u == w || ExpiredInTime(u, w, now)
  {
  }

  lemma TouchLeaves(s: Store, w: Request, id: nat, from: int, now: int)
    requires Untouched(s, w, from) && from <= now
    ensures Untouched(Touch(s, id, now), w, now)
  {
    TouchKeeps(s, id, now);
    var s' := Touch(s, id, now);
    forall r | r in s'.buffer && r.id == w.id ensures r == w || ExpiredInTime(r, w, now) {
      var j :| 0 <= j < |s'.buffer| && s'.buffer[j] == r;
      OneMoreUntouched(s.buffer[j], r, w, from, now);
    }
  }

  lemma ListLeaves(s: Store, w: Request, tenant: string, from: int, now: int)
    requires Untouched(s, w, from) && from <= now
    ensures Untouched(Apply(s, GetPending(tenant), now).0, w, now)
  {
    var rs := PendingOf(s.buffer, tenant);
    PendingDistinct(s, tenant);
    ExpireAllKeeps(s, rs, now);
    SweptLeaves(s, w, rs, ExpireAll(s, rs, now), from, now);
  }

  lemma SweptLeaves(s: Store, w: Request, rs: seq<Request>, s': Store, from: int, now: int)
    requires Untouched(s, w, from) && from <= now && SweptStore(s, rs, now, s')
    ensures Untouched(s', w, now)
  {
    forall r | r in s'.buffer && r.id == w.id ensures r == w || ExpiredInTime(r, w, now) {
      var j :| 0 <= j < |s'.buffer| && s'.buffer[j] == r;
      assert r == Swept(s, rs, now, j);
      OneMoreUntouched(s.buffer[j], r, w, from, now);
    }
  }

  lemma ModifyLeaves(s: Store, w: Request, id: nat, c: Change, from: int, now: int)
    requires Untouched(s, w, from) && from <= now && id != w.id
    ensures Untouched(After(s, id, c, now), w, now)
  {
    TouchLeaves(s, w, id, from, now);
    ModifyKeeps(s, id, c, now);
    FoundLeaves(Touch(s, id, now), w, id, c, now);
  }

  lemma FoundLeaves(t: Store, w: Request, id: nat, c: Change, now: int)
    requires Untouched(t, w, now) && id != w.id && Consistent(ModifyFound(t, id, c, now).0)
    ensures Untouched(ModifyFound(t, id, c, now).0, w, now)
  {
    var i := Find(t.buffer, id);
    if i < |t.buffer| {
      var result := Changed(t.buffer[i], c, now);
      if result.Ok? {
        OtherPutLeaves(t, w, result.value, now);
      }
    }
  }

  lemma OtherPutLeaves(t: Store, w: Request, u: Request, now: int)
    requires Untouched(t, w, now) && u.id != w.id && Find(t.buffer, u.id) < |t.buffer|
    requires Consistent(Put(t, u))
    ensures Untouched(Put(t, u), w, now)
  {
    PutInPlace(t, u, Find(t.buffer, u.id));
  }

  lemma CreateLeaves(s: Store, w: Request, input: Input, from: int, now: int)
    requires Untouched(s, w, from) && from <= now
    ensures Untouched(Apply(s, Create(input), now).0, w, now)
  {
    ApplyKeeps(s, Create(input), now);
    PutNew(s, NewRequest(s.created, input, now));
    forall r | r in s.buffer && r.id == w.id ensures r == w || ExpiredInTime(r, w, now) {
      OneMoreUntouched(r, r, w, from, now);
    }
  }

  lemma {:induction false} RunLeaves(s: Store, w: Request, calls: seq<Call>, from: int)
    requires Untouched(s, w, from) && InTime(calls, from) && LeftAlone(calls, w.id)
    ensures Untouched(Run(s, calls), w, EndTime(calls, from))
    decreases |calls|
  {
    if calls != [] {
      var c := calls[0];
      match c.op {
        case Create(input) => CreateLeaves(s, w, input, from, c.now);
        case Modify(id, change) => ModifyLeaves(s, w, id, change, from, c.now);
        case GetById(id) => TouchLeaves(s, w, id, from, c.now);
        case GetPending(tenant) => ListLeaves(s, w, tenant, from, c.now);
      }
      RunLeaves(Apply(s, c.op, c.now).0, w, calls[1..], c.now);
    }
  }

  /** A new request is what was asked, with no approvals yet, and a look-up shows it. */
  lemma CreatedAsAsked(before: seq<Call>, input: Input, now: int)
    ensures var s := Run(EMPTY, before);
            var (s', a) := Apply(s, Create(input), now);
            && a.One? && a.request.id == s.created && a.request.subject == input.subject
            && a.request.status == Pending && a.request.approvals == []
            && a.request.createdAt == now && a.request.expiresAt == Deadline(input, now)
            && a.request.required == (if input.required.Some? then input.required.value
                                      else if input.subject.risk == Critical then 2 else 1)
            && (now <= Deadline(input, now) ==> Seen(s', s.created, now) == a)
  {
    RunKeeps(EMPTY, before);
    CreatedIsSeen(Run(EMPTY, before), input, now);
  }

  lemma CreatedIsSeen(s: Store, input: Input, now: int)
    requires LastCreated(s)
    ensures var (s', a) := Apply(s, Create(input), now);
            a.One? && (!IsExpired(a.request, now) ==> Seen(s', s.created, now) == a)
  {
    var w := NewRequest(s.created, input, now);
    var s' := Apply(s, Create(input), now).0;
    PutNew(s, w);
    FindLast(s', w.id);
    assert Last(s'.buffer) == w;
  }

  lemma CreatedUntouched(s: Store, input: Input, now: int)
    requires Consistent(s)
    ensures var (s', a) := Apply(s, Create(input), now); a.One? && Untouched(s', a.request, now)
  {
    var w := NewRequest(s.created, input, now);
    var s' := Apply(s, Create(input), now).0;
    ApplyKeeps(s, Create(input), now);
    PutNew(s, w);
    forall r | r in s'.buffer && r.id == w.id ensures r == w {
    }
  }

  /**
   A request that nobody acts on is shown pending up to and including its deadline and
   expired ever after, for as long as it is remembered.
   */
  lemma CreatedUntilDeadline(before: seq<Call>, input: Input, now: int, calls: seq<Call>, later: int)
    requires InTime(calls, now) && EndTime(calls, now) <= later
    requires LeftAlone(calls, Run(EMPTY, before).created)
    ensures var s := Run(EMPTY, before);
            var (s', a) := Apply(s, Create(input), now);
            var seen := Seen(Run(s', calls), s.created, later);
            seen.One? ==>
              && SameRequest(a.request, seen.request) && seen.request.approvals == []
              && seen.request.status == (if later <= Deadline(input, now) then Pending else Expired)
  {
    RunKeeps(EMPTY, before);
    var s := Run(EMPTY, before);
    CreatedAsAsked(before, input, now);
    CreatedUntouched(s, input, now);
    var (s', a) := Apply(s, Create(input), now);
    RunLeaves(s', a.request, calls, now);
    SeenUntouched(Run(s', calls), a.request, EndTime(calls, now), later);
  }

  lemma SeenUntouched(s: Store, w: Request, from: int, later: int)
    requires Untouched(s, w, from) && from <= later
    ensures var seen := Seen(s, w.id, later);
            seen.One? ==>
              && SameRequest(w, seen.request) && seen.request.approvals == w.approvals
              && seen.request.status == (if later <= w.expiresAt then Pending else Expired)
  {
    var t := Touch(s, w.id, later);
    TouchLeaves(s, w, w.id, from, later);
    var i := Find(t.buffer, w.id);
    if i < |t.buffer| {
      TouchExpires(s, w.id, later);
      UntouchedStatus(t.buffer[i], w, later);
    }
  }

  lemma TouchExpires(s: Store, id: nat, now: int)
    requires Consistent(s)
    ensures var t := Touch(s, id, now);
            Find(t.buffer, id) < |t.buffer| ==> !IsExpired(t.buffer[Find(t.buffer, id)], now)
  {
    TouchKeeps(s, id, now);
    FindLast(s, id);
    FindLast(Touch(s, id, now), id);
  }

  lemma UntouchedStatus(r: Request, w: Request, now: int)
    requires w.status.Pending? && (r == w || ExpiredInTime(r, w, now)) && !IsExpired(r, now)
    ensures SameRequest(w, r) && r.approvals == w.approvals
    ensures r.status == if now <= w.expiresAt then Pending else Expired
  {
  }

  /** The list of pending requests holds exactly the tenant's pending requests still in time. */
  lemma ListPendingExact(s: Store, tenant: string, now: int, r: Request)
    ensures r in Apply(s, GetPending(tenant), now).1.requests <==>
              && r in s.buffer && r.status == Pending && now <= r.expiresAt
              && (tenant == "" || r.subject.tenant == tenant)
  {
  }
}
