/**
 Time-bounded permission grants, and revocations made of three separate statements that
 interleave with one another and may stop halfway.
 */
module Grants {
  import opened Common

  // ---------------------------------------------------------------- rows

  /** What a permission is asked for. */
  datatype Key = Key(tenant: string, actor: string, resourceType: string, resourceId: string, permission: string)

  /** The identifier of a grant is its index in the table. Times are in milliseconds. */
  datatype Grant = Grant(
    key: Key, scopeId: Option<string>, grantedBy: string, grantedAt: int, expiresAt: int,
    revokedAt: Option<int>, revokedBy: Option<string>, revocationId: Option<nat>,
    lastUsedAt: Option<int>, useCount: nat)

  datatype Revocation = Revocation(tenant: string, grant: nat, revokedBy: string, reason: string, effectiveAt: int)

  const MIN_TTL_SECONDS := 60
  const MAX_TTL_SECONDS := 365 * 24 * 3600

  function Clamped(ttl: int): int {
    var atLeast := if ttl < MIN_TTL_SECONDS then MIN_TTL_SECONDS else ttl;
    if atLeast > MAX_TTL_SECONDS then MAX_TTL_SECONDS else atLeast
  }

  function NewGrant(key: Key, scopeId: Option<string>, who: string, ttl: int, now: int): Grant {
    Grant(key, scopeId, who, now, now + Clamped(ttl) * 1000, None, None, None, None, 0)
  }

  predicate Active(g: Grant, now: int) {
    g.revokedAt.None? && g.expiresAt > now
  }

  predicate Serves(g: Grant, key: Key, now: int) {
    g.key == key && Active(g, now)
  }

  /** ORDER BY expires_at DESC LIMIT 1 among the first `n` rows that serve the key. */
  function Best(grants: seq<Grant>, n: nat, key: Key, now: int): (r: Option<nat>)
    requires n <= |grants|
    ensures r.None? <==> forall k :: 0 <= k < n ==> !Serves(grants[k], key, now)
    ensures r.Some? ==>
      && r.value < n && Serves(grants[r.value], key, now)
      && forall k :: 0 <= k < n && Serves(grants[k], key, now) ==> grants[k].expiresAt <= grants[r.value].expiresAt
  {
    if n == 0 then None
    else
      var b := Best(grants, n - 1, key, now);
      if Serves(grants[n - 1], key, now) && (b.None? || grants[b.value].expiresAt < grants[n - 1].expiresAt)
      then Some(n - 1)
      else b
  }

  /** `checkPermission`: the grant it returns, if it grants. */
  function Check(grants: seq<Grant>, key: Key, now: int): Option<nat> {
    Best(grants, |grants|, key, now)
  }

  datatype Refusal = NotFound | AlreadyRevoked | AlreadyExpired

  /** The checks a revocation makes on the row it read, in their order. */
  function Refused(grants: seq<Grant>, id: nat, tenant: string, now: int): Option<Refusal> {
    if id >= |grants| || grants[id].key.tenant != tenant then Some(NotFound)
    else if grants[id].revokedAt.Some? then Some(AlreadyRevoked)
    else if grants[id].expiresAt <= now then Some(AlreadyExpired)
    else None
  }

  /** UPDATE ... WHERE id AND tenant_id: whoever comes last wins. */
  function Marked(grants: seq<Grant>, r: Revocation, revocationId: nat, now: int): seq<Grant> {
    if r.grant < |grants| && grants[r.grant].key.tenant == r.tenant then
      grants[r.grant := grants[r.grant].(
        revokedAt := Some(now), revokedBy := Some(r.revokedBy), revocationId := Some(revocationId))]
    else grants
  }

  function Used(grants: seq<Grant>, id: nat, now: int): seq<Grant> {
    if id < |grants|
    then grants[id := grants[id].(useCount := grants[id].useCount + 1, lastUsedAt := Some(now))]
    else grants
  }

  function CountExpired(grants: seq<Grant>, now: int): nat {
    |Filter(grants, (g: Grant) => g.revokedAt.None? && g.expiresAt <= now)|
  }

  lemma {:induction false} BestOfPrefix(grants: seq<Grant>, g: Grant, n: nat, key: Key, now: int)
    requires n <= |grants|
    ensures Best(grants + [g], n, key, now) == Best(grants, n, key, now)
  {
    if n > 0 {
      BestOfPrefix(grants, g, n - 1, key, now);
      assert (grants + [g])[n - 1] == grants[n - 1];
    }
  }

  /** A new grant serves its own key until its bounded time is up, and no other key at all. */
  lemma NewGrantServesExact(grants: seq<Grant>, key: Key, scopeId: Option<string>, who: string, ttl: int, now: int,
                            asked: Key, t: int)
    ensures var seconds := if ttl < 60 then 60 else if ttl > 31_536_000 then 31_536_000 else ttl;
            Check(grants + [NewGrant(key, scopeId, who, ttl, now)], asked, t).Some?
            <==> Check(grants, asked, t).Some? || (asked == key && t < now + seconds * 1000)
    ensures asked != key ==>
            Check(grants + [NewGrant(key, scopeId, who, ttl, now)], asked, t) == Check(grants, asked, t)
  {
    BestOfPrefix(grants, NewGrant(key, scopeId, who, ttl, now), |grants|, asked, t);
  }

  // ---------------------------------------------------------------- the two tables

  class GrantTables {
    var grants: seq<Grant>
    var revocations: seq<Revocation>

    method GrantPermission(key: Key, scopeId: Option<string>, who: string, ttl: int, now: int) returns (id: nat)
      modifies this`grants
      ensures id == |old(grants)|
      ensures var seconds := if ttl < 60 then 60 else if ttl > 31_536_000 then 31_536_000 else ttl;
              grants == old(grants)
                + [Grant(key, scopeId, who, now, now + seconds * 1000, None, None, None, None, 0)]
    {
      id := |grants|;
      grants := grants + [NewGrant(key, scopeId, who, ttl, now)];
    }

    /** Grants exactly when some row serves the key; the use is recorded by a later statement. */
    method CheckPermission(key: Key, now: int) returns (grant: Option<nat>)
      ensures grant == Check(grants, key, now)
      ensures grant.Some? <==> exists g :: g in grants && g.key == key && g.revokedAt.None? && now < g.expiresAt
    {
      grant := Check(grants, key, now);
    }

    method RecordUse(id: nat, now: int)
      modifies this`grants
      ensures grants == Used(old(grants), id, now)
      ensures |grants| == |old(grants)| && forall k :: 0 <= k < |grants| ==>
        (grants[k] == if k == id
                      then old(grants)[k].(useCount := old(grants)[k].useCount + 1, lastUsedAt := Some(now))
                      else old(grants)[k])
    {
      if id < |grants| {
        grants := grants[id := grants[id].(useCount := grants[id].useCount + 1, lastUsedAt := Some(now))];
      }
    }

    method InsertRevocation(r: Revocation) returns (id: nat)
      modifies this`revocations
      ensures id == |old(revocations)| && revocations == old(revocations) + [r]
    {
      id := |revocations|;
      revocations := revocations + [r];
    }

    method MarkRevoked(r: Revocation, revocationId: nat, now: int)
      modifies this`grants
      ensures grants == Marked(old(grants), r, revocationId, now)
    {
      grants := Marked(grants, r, revocationId, now);
    }

    /** One undisturbed revocation: read and check, insert the row, mark the grant. */
    method RevokePermission(id: nat, tenant: string, who: string, reason: string, now: int)
      returns (refusal: Option<Refusal>)
      modifies this
      ensures refusal == Refused(old(grants), id, tenant, now)
      ensures refusal == Some(NotFound) <==> id >= |old(grants)| || old(grants)[id].key.tenant != tenant
      ensures refusal == Some(AlreadyRevoked) <==>
        id < |old(grants)| && old(grants)[id].key.tenant == tenant && old(grants)[id].revokedAt.Some?
      ensures refusal == Some(AlreadyExpired) <==>
        id < |old(grants)| && old(grants)[id].key.tenant == tenant
        && old(grants)[id].revokedAt.None? && old(grants)[id].expiresAt <= now
      ensures refusal.Some? ==> grants == old(grants) && revocations == old(revocations)
      ensures refusal.None? ==>
        && revocations == old(revocations) + [Revocation(tenant, id, who, reason, now)]
        && id < |grants| == |old(grants)|
        && grants[id] == old(grants)[id].(
             revokedAt := Some(now), revokedBy := Some(who), revocationId := Some(|old(revocations)|))
        && forall k :: 0 <= k < |grants| && k != id ==> grants[k] == old(grants)[k]
    {
      refusal := Refused(grants, id, tenant, now);
      if refusal.None? {
        var row := Revocation(tenant, id, who, reason, now);
        var revocationId := InsertRevocation(row);
        MarkRevoked(row, revocationId, now);
      }
    }

    /** The sweep only counts: expiry is enforced when grants are read. */
    method RunTtlSweep(now: int) returns (checked: nat, expired: nat)
      ensures expired == |Filter(grants, (g: Grant) => g.revokedAt.None? && g.expiresAt <= now)|
      ensures checked == |Filter(grants, (g: Grant) => g.revokedAt.None?)|
    {
      checked := |Filter(grants, (g: Grant) => g.revokedAt.None?)|;
      expired := CountExpired(grants, now);
    }
  }

  // ---------------------------------------------------------------- every interleaving

  /** A revocation that has passed its checks, and one whose row is in the table. */
  datatype Revoker = Checked(row: Revocation, attempt: nat) | Inserted(row: Revocation, attempt: nat, id: nat)

  /**
   The tables and the revocations in flight. The rest is history: the rows whose revocation
   stopped before its mark; how many revocations passed their checks, which numbers them; for
   each row the number of its revocation; for each revocation in flight or with a row its
   grant; and the rivals, pairs of which the later passed its checks while the earlier one
   contended for the same grant.
   */
  datatype State = State(
    clock: int, grants: seq<Grant>, revocations: seq<Revocation>,
    revokers: map<int, Revoker>, abandoned: set<nat>,
    attempts: nat, origin: seq<nat>, claims: map<nat, nat>, rivals: set<(nat, nat)>)

  datatype Action =
    | Tick(d: nat)
    | Issue(key: Key, scopeId: Option<string>, who: string, ttl: int)
    | RecordUse(id: nat)
    | SelectGrant(p: int, id: nat, tenant: string, who: string, reason: string)
    | InsertRow(p: int) | MarkGrant(p: int) | Crash(p: int)

  /** The revocations of a grant that are in flight, or stopped between their row and their mark. */
  ghost function Contenders(s: State, grant: nat): set<nat> {
    (set p | p in s.revokers && s.revokers[p].row.grant == grant :: s.revokers[p].attempt)
    + (set r | r in s.abandoned && r < |s.revocations| && r < |s.origin| && s.revocations[r].grant == grant
         :: s.origin[r])
  }

  ghost function Step(s: State, a: Action): State {
    match a
    case Tick(d) => s.(clock := s.clock + d)
    case Issue(key, scopeId, who, ttl) => s.(grants := s.grants + [NewGrant(key, scopeId, who, ttl, s.clock)])
    case RecordUse(id) => s.(grants := Used(s.grants, id, s.clock))
    case SelectGrant(p, id, tenant, who, reason) =>
      if !Passes(s, p, id, tenant) then s
      else
        s.(revokers := s.revokers[p := Checked(Revocation(tenant, id, who, reason, s.clock), s.attempts)],
           attempts := s.attempts + 1, claims := s.claims[s.attempts := id],
           rivals := s.rivals + set m | m in Contenders(s, id) :: (m, s.attempts))
    case InsertRow(p) =>
      if p in s.revokers && s.revokers[p].Checked? then
        var row := s.revokers[p].row.(effectiveAt := s.clock);
        s.(revocations := s.revocations + [row], origin := s.origin + [s.revokers[p].attempt],
           revokers := s.revokers[p := Inserted(row, s.revokers[p].attempt, |s.revocations|)])
      else s
    case MarkGrant(p) =>
      if p in s.revokers && s.revokers[p].Inserted?
      then s.(grants := Marked(s.grants, s.revokers[p].row, s.revokers[p].id, s.clock), revokers := s.revokers - {p})
      else s
    case Crash(p) =>
      if p !in s.revokers then s
      else if s.revokers[p].Inserted?
      then s.(revokers := s.revokers - {p}, abandoned := s.abandoned + {s.revokers[p].id})
      else s.(revokers := s.revokers - {p}, claims := s.claims - {s.revokers[p].attempt})
  }

  /** Whether a revocation that reads the grant now goes on. */
  predicate Passes(s: State, p: int, id: nat, tenant: string) {
    p !in s.revokers && Refused(s.grants, id, tenant, s.clock).None?
  }

  ghost function Run(s: State, actions: seq<Action>): State
    decreases |actions|
  {
    if actions == [] then s else Run(Step(s, actions[0]), actions[1..])
  }

  const START := State(0, [], [], map[], {}, 0, [], map[], {})

  // ---------------------------------------------------------------- marks and rows

  /** The mark on a grant names a row that was written for it. */
  ghost predicate MarkHasRow(s: State, id: nat)
    requires id < |s.grants|
  {
    var g := s.grants[id];
    g.revokedAt.Some? ==>
      && g.revocationId.Some? && g.revocationId.value < |s.revocations|
      && var r := s.revocations[g.revocationId.value];
         r.grant == id && r.tenant == g.key.tenant && g.revokedBy == Some(r.revokedBy)
         && r.effectiveAt <= g.revokedAt.value <= s.clock
  }

  /** A row's grant is marked, or about to be, or the revocation stopped in between. */
  ghost predicate RowHasMark(s: State, r: nat)
    requires r < |s.revocations|
  {
    && s.revocations[r].grant < |s.grants|
    && (|| s.grants[s.revocations[r].grant].revokedAt.Some?
        || r in s.abandoned
        || exists p :: p in s.revokers && s.revokers[p].Inserted? && s.revokers[p].id == r)
  }

  ghost predicate RevokerOk(s: State, p: int)
    requires p in s.revokers
  {
    var row := s.revokers[p].row;
    && row.grant < |s.grants| && s.grants[row.grant].key.tenant == row.tenant && row.effectiveAt <= s.clock
    && (s.revokers[p].Inserted? ==> s.revokers[p].id < |s.revocations| && s.revocations[s.revokers[p].id] == row)
  }

  ghost predicate Sound(s: State) {
    && (forall id :: 0 <= id < |s.grants| ==> MarkHasRow(s, id))
    && (forall r :: 0 <= r < |s.revocations| ==> RowHasMark(s, r))
    && (forall p :: p in s.revokers ==> RevokerOk(s, p))
  }

  lemma InsertSound(s: State, p: int)
    requires Sound(s) && p in s.revokers && s.revokers[p].Checked?
    ensures Sound(Step(s, InsertRow(p)))
  {
    var s' := Step(s, InsertRow(p));
    assert s'.revokers[p].Inserted? && s'.revokers[p].id == |s.revocations|;
    forall r | 0 <= r < |s'.revocations| ensures RowHasMark(s', r) {
      if r < |s.revocations| {
        assert RowHasMark(s, r);
        if q :| q in s.revokers && s.revokers[q].Inserted? && s.revokers[q].id == r {
          assert s'.revokers[q] == s.revokers[q];
        }
      }
    }
    forall id | 0 <= id < |s'.grants| ensures MarkHasRow(s', id) {
      assert MarkHasRow(s, id);
    }
    forall q | q in s'.revokers ensures RevokerOk(s', q) {
      assert q in s.revokers && RevokerOk(s, q);
    }
  }

  lemma MarkSound(s: State, p: int)
    requires Sound(s) && p in s.revokers && s.revokers[p].Inserted?
    ensures Sound(Step(s, MarkGrant(p)))
  {
    var s' := Step(s, MarkGrant(p));
    var g := s.revokers[p].row.grant;
    assert RevokerOk(s, p);
    forall r | 0 <= r < |s'.revocations| ensures RowHasMark(s', r) {
      assert RowHasMark(s, r);
      if q :| q in s.revokers && s.revokers[q].Inserted? && s.revokers[q].id == r {
        assert q != p ==> s'.revokers[q] == s.revokers[q];
        assert RevokerOk(s, q);
      }
    }
    forall id | 0 <= id < |s'.grants| ensures MarkHasRow(s', id) {
      assert MarkHasRow(s, id);
    }
    forall q | q in s'.revokers ensures RevokerOk(s', q) {
      assert RevokerOk(s, q);
    }
  }

  lemma CrashSound(s: State, p: int)
    requires Sound(s)
    ensures Sound(Step(s, Crash(p)))
  {
    var s' := Step(s, Crash(p));
    forall r | 0 <= r < |s'.revocations| ensures RowHasMark(s', r) {
      assert RowHasMark(s, r);
      if q :| q in s.revokers && s.revokers[q].Inserted? && s.revokers[q].id == r {
        assert q != p ==> s'.revokers[q] == s.revokers[q];
      }
    }
    forall id | 0 <= id < |s'.grants| ensures MarkHasRow(s', id) {
      assert MarkHasRow(s, id);
    }
    forall q | q in s'.revokers ensures RevokerOk(s', q) {
      assert RevokerOk(s, q);
    }
  }

  lemma QuietSound(s: State, a: Action)
    requires Sound(s) && (a.Tick? || a.Issue? || a.RecordUse? || a.SelectGrant?)
    ensures Sound(Step(s, a))
  {
    var s' := Step(s, a);
    forall r | 0 <= r < |s'.revocations| ensures RowHasMark(s', r) {
      assert RowHasMark(s, r);
      if q :| q in s.revokers && s.revokers[q].Inserted? && s.revokers[q].id == r {
        assert s'.revokers[q] == s.revokers[q];
      }
    }
    forall id | 0 <= id < |s'.grants| ensures MarkHasRow(s', id) {
      assert id < |s.grants| ==> MarkHasRow(s, id);
    }
    forall q | q in s'.revokers ensures RevokerOk(s', q) {
      assert q in s.revokers ==> RevokerOk(s, q);
    }
  }

  lemma StepSound(s: State, a: Action)
    requires Sound(s)
    ensures Sound(Step(s, a))
  {
    match a
    case InsertRow(p) => if p in s.revokers && s.revokers[p].Checked? { InsertSound(s, p); }
    case MarkGrant(p) => if p in s.revokers && s.revokers[p].Inserted? { MarkSound(s, p); }
    case Crash(p) => CrashSound(s, p);
    case _ => QuietSound(s, a);
  }

  /**
   In every reachable state each mark names its own revocation row, and each row's grant is
   marked unless the revocation has not finished or stopped before its last statement.
   */
  lemma {:induction false} MarksMatchRows(s: State, actions: seq<Action>)
    requires Sound(s)
    ensures Sound(Run(s, actions))
    decreases |actions|
  {
    if actions != [] {
      StepSound(s, actions[0]);
      MarksMatchRows(Step(s, actions[0]), actions[1..]);
    }
  }

  // ---------------------------------------------------------------- grants over time

  /** What no later step changes: rows stay, keys and expiries are fixed, marks are not removed. */
  ghost predicate Evolves(s: State, s': State) {
    && s.clock <= s'.clock && |s.grants| <= |s'.grants| && s.revocations <= s'.revocations
    && forall id :: 0 <= id < |s.grants| ==>
         && s'.grants[id].key == s.grants[id].key && s'.grants[id].expiresAt == s.grants[id].expiresAt
         && s'.grants[id].useCount >= s.grants[id].useCount
         && (s.grants[id].revokedAt.Some? ==> s'.grants[id].revokedAt.Some?)
  }

  lemma {:induction false} RunEvolves(s: State, actions: seq<Action>)
    ensures Evolves(s, Run(s, actions))
    decreases |actions|
  {
    if actions != [] {
      assert Evolves(s, Step(s, actions[0]));
      RunEvolves(Step(s, actions[0]), actions[1..]);
    }
  }

  /** A grant once revoked or expired is never returned again. */
  lemma DeadGrantsStayDead(s: State, actions: seq<Action>, id: nat, key: Key)
    requires id < |s.grants| && !Active(s.grants[id], s.clock)
    ensures var s' := Run(s, actions); Check(s'.grants, key, s'.clock) != Some(id)
  {
    RunEvolves(s, actions);
  }

  /** A granted permission stays granted until the returned grant expires or is revoked. */
  lemma GrantPersists(s: State, actions: seq<Action>, key: Key)
    requires Check(s.grants, key, s.clock).Some?
    ensures var id := Check(s.grants, key, s.clock).value;
            var s' := Run(s, actions);
            && id < |s'.grants|
            && (s'.clock < s.grants[id].expiresAt && s'.grants[id].revokedAt.None? ==>
                  var answer := Check(s'.grants, key, s'.clock);
                  answer.Some? && s'.grants[answer.value].expiresAt >= s.grants[id].expiresAt)
  {
    RunEvolves(s, actions);
    var id := Check(s.grants, key, s.clock).value;
    var s' := Run(s, actions);
    if s'.clock < s.grants[id].expiresAt && s'.grants[id].revokedAt.None? {
      assert Serves(s'.grants[id], key, s'.clock);
    }
  }

  predicate NeitherGrantsNorRevokes(a: Action) {
    !a.Issue? && !a.MarkGrant?
  }

  lemma {:induction false} QuietRun(s: State, actions: seq<Action>)
    requires forall a :: a in actions ==> NeitherGrantsNorRevokes(a)
    ensures var s' := Run(s, actions);
            |s'.grants| == |s.grants| &&
            forall k :: 0 <= k < |s.grants| ==>
              s'.grants[k].key == s.grants[k].key && s'.grants[k].expiresAt == s.grants[k].expiresAt
              && s'.grants[k].revokedAt == s.grants[k].revokedAt
    decreases |actions|
  {
    if actions != [] {
      assert NeitherGrantsNorRevokes(actions[0]);
      assert forall a :: a in actions[1..] ==> a in actions;
      QuietRun(Step(s, actions[0]), actions[1..]);
    }
  }

  /** While nothing is granted or marked, the answer lasts exactly until that expiry. */
  lemma AnswerLastsExactly(s: State, actions: seq<Action>, key: Key)
    requires forall a :: a in actions ==> NeitherGrantsNorRevokes(a)
    requires Check(s.grants, key, s.clock).Some?
    ensures var s' := Run(s, actions);
            Check(s'.grants, key, s'.clock).Some?
            <==> s'.clock < s.grants[Check(s.grants, key, s.clock).value].expiresAt
  {
    RunEvolves(s, actions);
    QuietRun(s, actions);
    var id := Check(s.grants, key, s.clock).value;
    var s' := Run(s, actions);
    if s'.clock < s.grants[id].expiresAt {
      assert Serves(s'.grants[id], key, s'.clock);
    } else if Check(s'.grants, key, s'.clock).Some? {
      var k := Check(s'.grants, key, s'.clock).value;
      assert Serves(s.grants[k], key, s.clock);
    }
  }

  // ---------------------------------------------------------------- one revocation per grant

  ghost predicate OneRowEach(rows: seq<Revocation>) {
    forall i, j :: 0 <= i < j < |rows| ==> rows[i].grant != rows[j].grant
  }

  /** Numbers are given once, and every claim is a checked revocation or has a row. */
  ghost predicate Numbered(s: State) {
    && |s.origin| == |s.revocations|
    && (forall i, j :: 0 <= i < j < |s.origin| ==> s.origin[i] != s.origin[j])
    && (forall p, q :: p in s.revokers && q in s.revokers && p != q ==> s.revokers[p].attempt != s.revokers[q].attempt)
    && (forall p :: p in s.revokers ==>
          if s.revokers[p].Checked? then s.revokers[p].attempt !in s.origin
          else s.revokers[p].id < |s.origin| && s.origin[s.revokers[p].id] == s.revokers[p].attempt)
    && (forall m :: m in s.claims ==> m < s.attempts && (m in s.origin || IsChecked(s, m)))
  }

  ghost predicate IsChecked(s: State, m: nat) {
    exists p :: p in s.revokers && s.revokers[p].Checked? && s.revokers[p].attempt == m
  }

  ghost predicate Claimed(s: State) {
    && (forall p :: p in s.revokers ==>
          s.revokers[p].attempt in s.claims && s.claims[s.revokers[p].attempt] == s.revokers[p].row.grant)
    && (forall r :: 0 <= r < |s.origin| && r < |s.revocations| ==>
          s.origin[r] in s.claims && s.claims[s.origin[r]] == s.revocations[r].grant)
  }

  /** Of two claims the earlier one contended for the same grant exactly when they are rivals. */
  ghost predicate RivalsExact(s: State) {
    && (forall m, n :: (m, n) in s.rivals ==> m < n < s.attempts)
    && (forall m, n :: m in s.claims && n in s.claims && m < n ==>
          (s.claims[m] == s.claims[n] <==> (m, n) in s.rivals))
  }

  ghost predicate Inv(s: State) {
    Sound(s) && Numbered(s) && Claimed(s) && RivalsExact(s)
  }

  /** While a grant can still be revoked, its claims are just its contenders. */
  lemma ContendersAreClaims(s: State, id: nat, m: nat)
    requires Inv(s) && id < |s.grants| && s.grants[id].revokedAt.None?
    ensures m in Contenders(s, id) <==> m in s.claims && s.claims[m] == id
  {
    if m in s.claims && s.claims[m] == id && m in s.origin {
      var r :| 0 <= r < |s.origin| && s.origin[r] == m;
      assert RowHasMark(s, r);
    }
  }

  lemma SelectKeeps(s: State, a: Action)
    requires Inv(s) && a.SelectGrant? && Passes(s, a.p, a.id, a.tenant)
    ensures Numbered(Step(s, a)) && Claimed(Step(s, a)) && RivalsExact(Step(s, a))
  {
    var s' := Step(s, a);
    forall m | m in s'.claims ensures m < s'.attempts && (m in s'.origin || IsChecked(s', m)) {
      if m in s.claims && IsChecked(s, m) {
        var q :| q in s.revokers && s.revokers[q].Checked? && s.revokers[q].attempt == m;
        assert s'.revokers[q] == s.revokers[q];
      } else if m == s.attempts {
        assert s'.revokers[a.p].attempt == m;
      }
    }
    forall m | m in s.claims ensures s.claims[m] == a.id <==> (m, s.attempts) in s'.rivals {
      ContendersAreClaims(s, a.id, m);
    }
    forall m | (m, s.attempts) in s'.rivals ensures m < s.attempts {
      ContendersAreClaims(s, a.id, m);
    }
  }

  lemma InsertKeeps(s: State, p: int)
    requires Inv(s) && p in s.revokers && s.revokers[p].Checked?
    ensures var s' := Step(s, InsertRow(p)); Numbered(s') && Claimed(s') && RivalsExact(s')
  {
    var s' := Step(s, InsertRow(p));
    var n := s.revokers[p].attempt;
    assert s'.origin[|s.origin|] == n;
    forall m | m in s'.claims ensures m in s'.origin || IsChecked(s', m) {
      if m in s.origin {
        assert m in s'.origin;
      } else if m != n {
        var q :| q in s.revokers && s.revokers[q].Checked? && s.revokers[q].attempt == m;
        assert s'.revokers[q] == s.revokers[q];
      }
    }
  }

  lemma LeaveKeeps(s: State, a: Action)
    requires Inv(s) && (a.MarkGrant? || a.Crash?)
    ensures var s' := Step(s, a); Numbered(s') && Claimed(s') && RivalsExact(s')
  {
    var s' := Step(s, a);
    forall m | m in s'.claims ensures m in s'.origin || IsChecked(s', m) {
      if m !in s.origin {
        var q :| q in s.revokers && s.revokers[q].Checked? && s.revokers[q].attempt == m;
        assert s'.revokers[q] == s.revokers[q];
      }
    }
  }

  lemma StepInv(s: State, a: Action)
    requires Inv(s)
    ensures Inv(Step(s, a))
  {
    StepSound(s, a);
    match a
    case SelectGrant(p, id, tenant, _, _) => if Passes(s, p, id, tenant) { SelectKeeps(s, a); }
    case InsertRow(p) => if p in s.revokers && s.revokers[p].Checked? { InsertKeeps(s, p); }
    case MarkGrant(_) => LeaveKeeps(s, a);
    case Crash(_) => LeaveKeeps(s, a);
    case _ =>
      assert forall m :: IsChecked(s, m) ==> IsChecked(Step(s, a), m);
  }

  lemma {:induction false} RunInv(s: State, actions: seq<Action>)
    requires Inv(s)
    ensures Inv(Run(s, actions))
    decreases |actions|
  {
    if actions != [] {
      StepInv(s, actions[0]);
      RunInv(Step(s, actions[0]), actions[1..]);
    }
  }

  /**
   Over every run, a grant gets two rows exactly when some revocation passed its checks while
   another one of the grant was in flight, or was abandoned past its row, and both inserted.
   */
  lemma OneRevocationExact(actions: seq<Action>)
    ensures var s := Run(START, actions);
            OneRowEach(s.revocations) <==> forall m, n :: (m, n) in s.rivals ==> !(m in s.origin && n in s.origin)
  {
    RunInv(START, actions);
    var s := Run(START, actions);
    forall i, j | 0 <= i < j < |s.revocations|
      ensures s.revocations[i].grant == s.revocations[j].grant <==>
              (s.origin[i], s.origin[j]) in s.rivals || (s.origin[j], s.origin[i]) in s.rivals
    {
    }
    if OneRowEach(s.revocations) {
      forall m, n | (m, n) in s.rivals ensures !(m in s.origin && n in s.origin) {
        if m in s.origin && n in s.origin {
          var i :| 0 <= i < |s.origin| && s.origin[i] == m;
          var j :| 0 <= j < |s.origin| && s.origin[j] == n;
        }
      }
    }
  }

  // ---------------------------------------------------------------- what a caller can check before

  ghost predicate TwoRowsFor(rows: seq<Revocation>, grant: nat) {
    exists i, j :: 0 <= i < j < |rows| && rows[i].grant == grant && rows[j].grant == grant
  }

  predicate NoSelectOf(actions: seq<Action>, grant: nat) {
    forall k :: 0 <= k < |actions| ==> !(actions[k].SelectGrant? && actions[k].id == grant)
  }

  /** The grant has at most this one claim. */
  ghost predicate OnlyClaim(s: State, grant: nat, n: nat) {
    forall m :: m in s.claims && s.claims[m] == grant ==> m == n
  }

  lemma {:induction false} OnlyClaimStays(s: State, grant: nat, n: nat, actions: seq<Action>)
    requires OnlyClaim(s, grant, n) && NoSelectOf(actions, grant)
    ensures OnlyClaim(Run(s, actions), grant, n)
    decreases |actions|
  {
    if actions != [] {
      assert NoSelectOf(actions[1..], grant) by {
        assert forall k :: 0 <= k < |actions[1..]| ==> actions[1..][k] == actions[k + 1];
      }
      OnlyClaimStays(Step(s, actions[0]), grant, n, actions[1..]);
    }
  }

  lemma InsertAdds(s: State, p: int)
    requires p in s.revokers && s.revokers[p].Checked?
    ensures var s' := Run(s, [InsertRow(p)]);
            && s' == Step(s, InsertRow(p))
            && |s'.revocations| == |s.revocations| + 1 && s.revocations <= s'.revocations
            && Last(s'.revocations).grant == s.revokers[p].row.grant
  {
    assert [InsertRow(p)][1..] == [];
  }

  /** A checked revocation of a grant that has a row, or a checked rival, can make two rows. */
  lemma CanDouble(s: State, p: int) returns (more: seq<Action>)
    requires p in s.revokers && s.revokers[p].Checked?
    requires (exists r :: r in s.revocations && r.grant == s.revokers[p].row.grant)
          || (exists q :: q in s.revokers && q != p && s.revokers[q].Checked?
                          && s.revokers[q].row.grant == s.revokers[p].row.grant)
    ensures NoSelectOf(more, s.revokers[p].row.grant)
    ensures TwoRowsFor(Run(s, more).revocations, s.revokers[p].row.grant)
  {
    var id := s.revokers[p].row.grant;
    if r :| r in s.revocations && r.grant == id {
      more := [InsertRow(p)];
      InsertAdds(s, p);
      var i :| 0 <= i < |s.revocations| && s.revocations[i] == r;
      var rows := Run(s, more).revocations;
      assert rows[i].grant == id && rows[|s.revocations|].grant == id;
    } else {
      var q :| q in s.revokers && q != p && s.revokers[q].Checked? && s.revokers[q].row.grant == id;
      var s1 := Step(s, InsertRow(q));
      more := [InsertRow(q), InsertRow(p)];
      assert more[1..] == [InsertRow(p)];
      InsertAdds(s1, p);
      var rows := Run(s, more).revocations;
      assert Run(s, more) == Run(s1, [InsertRow(p)]);
      assert rows[|s.revocations|].grant == id && rows[|s.revocations| + 1].grant == id;
    }
  }

  lemma ContendedCanDouble(s: State, a: Action) returns (more: seq<Action>)
    requires Inv(s) && a.SelectGrant? && Passes(s, a.p, a.id, a.tenant) && Contenders(s, a.id) != {}
    ensures NoSelectOf(more, a.id) && TwoRowsFor(Run(Step(s, a), more).revocations, a.id)
  {
    var s1 := Step(s, a);
    var m :| m in Contenders(s, a.id);
    ContendersAreClaims(s, a.id, m);
    if m in s.origin {
      var r :| 0 <= r < |s.origin| && s.origin[r] == m;
      assert s.revocations[r] in s1.revocations;
    } else {
      var q :| q in s.revokers && s.revokers[q].Checked? && s.revokers[q].attempt == m;
      assert s1.revokers[q] == s.revokers[q];
    }
    more := CanDouble(s1, a.p);
  }

  /**
   When a revocation passes its checks, it can still bring the grant two rows, with no further
   attempt, exactly when the grant is contended at that moment.
   */
  lemma ContentionExact(s: State, a: Action)
    requires Inv(s) && a.SelectGrant? && Passes(s, a.p, a.id, a.tenant)
    ensures Contenders(s, a.id) != {} <==>
      exists more :: NoSelectOf(more, a.id) && TwoRowsFor(Run(Step(s, a), more).revocations, a.id)
  {
    if Contenders(s, a.id) != {} {
      var more := ContendedCanDouble(s, a);
    } else {
      var s1 := Step(s, a);
      StepInv(s, a);
      forall m | m in s1.claims && s1.claims[m] == a.id ensures m == s.attempts {
        ContendersAreClaims(s, a.id, m);
      }
      forall more | NoSelectOf(more, a.id) ensures !TwoRowsFor(Run(s1, more).revocations, a.id) {
        RunInv(s1, more);
        OnlyClaimStays(s1, a.id, s.attempts, more);
      }
    }
  }
}
