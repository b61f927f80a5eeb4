/**
 Approval requests: the life of one request, and the in-memory store that keeps the newest
 500 of them, expires them lazily and issues an upsert for every version it writes.
 */
module Approvals {
  import opened Common

  // ---------------------------------------------------------------- one request

  datatype Status = Pending | Approved | Denied | Revoked | Expired

  datatype Risk = Critical | High | Moderate | Low

  datatype ActorKind = Human | Agent | Service

  datatype Approval = Approval(approver: string, kind: ActorKind, at: int, notes: Option<string>)

  datatype Subject = Subject(
    decision: string, tenant: string, actor: string, actorKind: ActorKind,
    action: string, resource: string, risk: Risk, justification: Option<string>, metadata: Option<string>)

  /** Identifiers are random in the program; here they number the requests as they are created. */
  datatype Request = Request(
    id: nat, subject: Subject, required: int, createdAt: int, expiresAt: int,
    status: Status, approvals: seq<Approval>,
    resolvedAt: Option<int>, resolvedBy: Option<string>, reason: Option<string>)

  datatype Error = NotFound | InvalidTransition(from: Status, to: Status) | DuplicateApprover

  datatype Result<+T> = Ok(value: T) | Err(error: Error)

  predicate CanTransition(from: Status, to: Status) {
    match from
    case Pending => to in {Approved, Denied, Expired}
    case Approved => to == Revoked
    case _ => false
  }

  predicate IsExpired(r: Request, now: int) {
    r.status.Pending? && r.expiresAt < now
  }

  function DefaultTtlSeconds(risk: Risk): int {
    match risk
    case Critical => 4 * 3600
    case High => 24 * 3600
    case Moderate => 72 * 3600
    case Low => 7 * 24 * 3600
  }

  function RequiredApprovals(risk: Risk): int {
    if risk.Critical? then 2 else 1
  }

  predicate HasReachedQuorum(r: Request) {
    |r.approvals| >= r.required
  }

  predicate HasApproved(approvals: seq<Approval>, approver: string) {
    exists k :: 0 <= k < |approvals| && approvals[k].approver == approver
  }

  datatype Input = Input(subject: Subject, required: Option<int>, ttlSeconds: Option<int>)

  function RequiredBy(input: Input): int {
    if input.required.Some? then input.required.value else RequiredApprovals(input.subject.risk)
  }

  function NewRequest(id: nat, input: Input, now: int): Request {
    var ttl := if input.ttlSeconds.Some? then input.ttlSeconds.value else DefaultTtlSeconds(input.subject.risk);
    Request(id, input.subject, RequiredBy(input), now, now + ttl * 1000, Pending, [], None, None, None)
  }

  function Expiry(r: Request, now: int): Request {
    r.(status := Expired, resolvedAt := Some(now), reason := Some("Auto-expired: TTL elapsed without resolution"))
  }

  // ---------------------------------------------------------------- operations

  datatype Change =
    | Approve(approver: string, kind: ActorKind, notes: Option<string>)
    | Deny(who: string, why: string)
    | Revoke(who: string, why: string)

  function Target(c: Change): Status {
    match c case Approve(_, _, _) => Approved case Deny(_, _) => Denied case Revoke(_, _) => Revoked
  }

  /** What a change makes of a request that was looked up, and so is not past its expiry. */
  function Changed(r: Request, c: Change, now: int): Result<Request> {
    if !CanTransition(r.status, Target(c)) then Err(InvalidTransition(r.status, Target(c)))
    else
      match c
      case Approve(approver, kind, notes) =>
        if HasApproved(r.approvals, approver) then Err(DuplicateApprover)
        else
          var r' := r.(approvals := r.approvals + [Approval(approver, kind, now, notes)]);
          Ok(if HasReachedQuorum(r')
             then r'.(status := Approved, resolvedAt := Some(now), resolvedBy := Some(approver),
                      reason := Some("Approved — quorum reached"))
             else r')
      case Deny(who, why) =>
        Ok(r.(status := Denied, resolvedAt := Some(now), resolvedBy := Some(who), reason := Some(why)))
      case Revoke(who, why) =>
        Ok(r.(status := Revoked, resolvedAt := Some(now), resolvedBy := Some(who), reason := Some("REVOKED: " + why)))
  }

  datatype Operation =
    | Create(input: Input)
    | Modify(id: nat, change: Change)
    | GetById(id: nat)
    | GetPending(tenant: string)

  datatype Answer = One(request: Request) | Missing | Many(requests: seq<Request>) | Failed(error: Error)

  // ---------------------------------------------------------------- the store as a value

  const BUFFER_MAX := 500

  datatype Store = Store(buffer: seq<Request>, created: nat, issued: seq<Request>)

  /** Index of the first request with this id, or the length when there is none. */
  function Find(buffer: seq<Request>, id: nat): (i: nat)
    ensures i <= |buffer|
    ensures i < |buffer| ==> buffer[i].id == id
    ensures forall k :: 0 <= k < i ==> buffer[k].id != id
  {
    if buffer == [] || buffer[0].id == id then 0 else 1 + Find(buffer[1..], id)
  }

  /** Overwrite in place, or push and drop the oldest beyond the maximum. */
  function Append(buffer: seq<Request>, r: Request): seq<Request> {
    var i := Find(buffer, r.id);
    if i < |buffer| then buffer[i := r]
    else if |buffer| + 1 > BUFFER_MAX then (buffer + [r])[1..]
    else buffer + [r]
  }

  /** The buffer is updated and an upsert of the same version is issued. */
  function Put(s: Store, r: Request): Store {
    s.(buffer := Append(s.buffer, r), issued := s.issued + [r])
  }

  /** Marks the raw record with this id expired, without looking at its time again. */
  function Expire(s: Store, id: nat, now: int): Store {
    var i := Find(s.buffer, id);
    if i < |s.buffer| then Put(s, Expiry(s.buffer[i], now)) else s
  }

  /** The lazy check on read. */
  function Touch(s: Store, id: nat, now: int): Store {
    var i := Find(s.buffer, id);
    if i < |s.buffer| && IsExpired(s.buffer[i], now) then Expire(s, id, now) else s
  }

  /** Expires those of the listed requests that are past their time, one after another. */
  function ExpireAll(s: Store, rs: seq<Request>, now: int): Store {
    if rs == [] then s
    else
      var s' := ExpireAll(s, rs[..|rs| - 1], now);
      if IsExpired(Last(rs), now) then Expire(s', Last(rs).id, now) else s'
  }

  predicate OfTenant(r: Request, tenant: string) {
    tenant == "" || r.subject.tenant == tenant
  }

  function PendingOf(rs: seq<Request>, tenant: string): seq<Request> {
    Filter(rs, (r: Request) => r.status.Pending? && OfTenant(r, tenant))
  }

  function Live(rs: seq<Request>, now: int): seq<Request> {
    Filter(rs, (r: Request) => !IsExpired(r, now))
  }

  /** A change that succeeded is written; one that failed only reports. */
  function Conclude(s: Store, result: Result<Request>): (Store, Answer) {
    match result
    case Err(e) => (s, Failed(e))
    case Ok(r) => (Put(s, r), One(r))
  }

  /** `approve`, `deny` or `revoke` after the lazy check. */
  function ModifyFound(s: Store, id: nat, change: Change, now: int): (Store, Answer) {
    var i := Find(s.buffer, id);
    Conclude(s, if i == |s.buffer| then Err(NotFound) else Changed(s.buffer[i], change, now))
  }

  function Apply(s: Store, op: Operation, now: int): (Store, Answer) {
    match op
    case Create(input) =>
      var r := NewRequest(s.created, input, now);
      (Put(s, r).(created := s.created + 1), One(r))
    case GetById(id) =>
      var s' := Touch(s, id, now);
      var i := Find(s'.buffer, id);
      (s', if i < |s'.buffer| then One(s'.buffer[i]) else Missing)
    case Modify(id, change) => ModifyFound(Touch(s, id, now), id, change, now)
    case GetPending(tenant) =>
      var rs := PendingOf(s.buffer, tenant);
      (ExpireAll(s, rs, now), Many(Live(rs, now)))
  }

  datatype Call = Call(op: Operation, now: int)

  const EMPTY := Store([], 0, [])

  function Run(s: Store, calls: seq<Call>): Store
    decreases |calls|
  {
    if calls == [] then s else Run(Apply(s, calls[0].op, calls[0].now).0, calls[1..])
  }

  // ---------------------------------------------------------------- the store as the program keeps it

  lemma FindAfterAppend(buffer: seq<Request>, r: Request)
    requires Find(buffer, r.id) < |buffer|
    ensures |Append(buffer, r)| == |buffer| && Find(Append(buffer, r), r.id) == Find(buffer, r.id)
  {
    var i, j := Find(buffer, r.id), Find(Append(buffer, r), r.id);
    assert Append(buffer, r)[i].id == r.id;
    assert forall k :: 0 <= k < i ==> Append(buffer, r)[k].id != r.id;
  }

  lemma ListStep(s: Store, rs: seq<Request>, k: nat, now: int)
    requires k < |rs|
    ensures var before := ExpireAll(s, rs[..k], now);
            ExpireAll(s, rs[..k + 1], now) == if IsExpired(rs[k], now) then Expire(before, rs[k].id, now) else before
    ensures Live(rs[..k + 1], now) == if IsExpired(rs[k], now) then Live(rs[..k], now) else Live(rs[..k], now) + [rs[k]]
  {
    assert rs[..k + 1] == rs[..k] + [rs[k]] && rs[..k + 1][..k] == rs[..k];
    FilterAppend(rs[..k], [rs[k]], (r: Request) => !IsExpired(r, now));
    assert [rs[k]][1..] == [];
  }

  class ApprovalStore {
    var buffer: seq<Request>
    var created: nat
    var issued: seq<Request>

    ghost function View(): Store
      reads this
    {
      Store(buffer, created, issued)
    }

    constructor ()
      ensures View() == EMPTY
    {
      buffer, created, issued := [], 0, [];
    }

    method AppendToBuffer(r: Request)
      modifies this`buffer
      ensures buffer == Append(old(buffer), r)
    {
      var i := Find(buffer, r.id);
      if i < |buffer| {
        buffer := buffer[i := r];
        return;
      }
      buffer := buffer + [r];
      if |buffer| > BUFFER_MAX {
        buffer := buffer[1..];
      }
    }

    method Write(r: Request)
      modifies this`buffer, this`issued
      ensures View() == Put(old(View()), r)
    {
      AppendToBuffer(r);
      issued := issued + [r];
    }

    /** `expire` on the raw record. */
    method ExpireRequest(id: nat, now: int) returns (expired: Option<Request>)
      modifies this`buffer, this`issued
      ensures View() == Expire(old(View()), id, now)
      ensures var i := Find(old(buffer), id);
              expired == if i < |old(buffer)| then Some(Expiry(old(buffer)[i], now)) else None
    {
      var i := Find(buffer, id);
      if i == |buffer| {
        return None;
      }
      var r := Expiry(buffer[i], now);
      Write(r);
      return Some(r);
    }

    method LookUp(id: nat, now: int) returns (found: Option<Request>)
      modifies this`buffer, this`issued
      ensures (View(), if found.Some? then One(found.value) else Missing) == Apply(old(View()), GetById(id), now)
    {
      var i := Find(buffer, id);
      if i == |buffer| {
        return None;
      }
      if IsExpired(buffer[i], now) {
        FindAfterAppend(buffer, Expiry(buffer[i], now));
        found := ExpireRequest(id, now);
        return found;
      }
      return Some(buffer[i]);
    }

    method CreateRequest(input: Input, now: int) returns (r: Request)
      modifies this
      ensures (View(), One(r)) == Apply(old(View()), Create(input), now)
    {
      r := NewRequest(created, input, now);
      Write(r);
      created := created + 1;
    }

    /** `approve`, `deny` and `revoke`. */
    method ModifyRequest(id: nat, change: Change, now: int) returns (result: Result<Request>)
      modifies this`buffer, this`issued
      ensures (View(), if result.Ok? then One(result.value) else Failed(result.error))
           == Apply(old(View()), Modify(id, change), now)
    {
      var found := LookUp(id, now);
      if found.None? {
        return Err(NotFound);
      }
      result := Changed(found.value, change, now);
      if result.Ok? {
        Write(result.value);
      }
    }

    method ListPending(tenant: string, now: int) returns (live: seq<Request>)
      modifies this`buffer, this`issued
      ensures (View(), Many(live)) == Apply(old(View()), GetPending(tenant), now)
    {
      var rs := PendingOf(buffer, tenant);
      live := [];
      for k := 0 to |rs|
        invariant View() == ExpireAll(old(View()), rs[..k], now)
        invariant live == Live(rs[..k], now)
      {
        ListStep(old(View()), rs, k, now);
        if IsExpired(rs[k], now) {
          var _ := ExpireRequest(rs[k].id, now);
        } else {
          live := live + [rs[k]];
        }
      }
      assert rs[..|rs|] == rs;
    }
  }
}
