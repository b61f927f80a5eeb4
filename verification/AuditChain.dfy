/**
 The operator audit ledger: the hash computed for a new binding, the verifier's rolling
 loop, and what an accepted ledger guarantees.
 */
module AuditChain {
  import opened Common
  import opened JsonText
  import opened CanonicalJson
  import opened AuditBlock
  import opened Digests
  import Ordering

  datatype Binding = Binding(
    id: int, tenant: string, position: int, fields: Fields, signature: string, root: Option<string>)

  datatype Config = Config(hash: Hash, secret: string)

  datatype ComputedHashes = ComputedHashes(current: string, previous: Option<string>, root: Option<string>)

  datatype Reason = NotMonotonic | PreviousMismatch | HashMismatch | RootMismatch

  datatype Verdict = Valid | ForkDetected(point: string, successors: nat) | Broken(id: int, reason: Reason)

  // ---------------------------------------------------------------- reading the table

  /** ORDER BY chain_position ASC, for the rows of one tenant. */
  function Ledger(table: seq<Binding>, tenant: string): seq<Binding> {
    Ordering.Sort(PositionLeq(), Rows(table, tenant))
  }

  function Rows(table: seq<Binding>, tenant: string): seq<Binding> {
    Filter(table, (b: Binding) => b.tenant == tenant)
  }

  function PositionLeq(): (Binding, Binding) -> bool {
    (a: Binding, b: Binding) => a.position <= b.position
  }

  function Tip(ledger: seq<Binding>): Option<Binding> {
    if ledger == [] then None else Some(Last(ledger))
  }

  // ---------------------------------------------------------------- hashes

  function RootHash(cfg: Config, tenant: string, traceId: string, signature: string): Digest {
    cfg.hash(RootBlock(tenant, traceId, signature, cfg.secret))
  }

  /** The hashes of a new binding, linked to the tip the database returned. */
  function ComputeChainHash(cfg: Config, tip: Option<Binding>, tenant: string, payload: Fields): ComputedHashes {
    var previous := if tip.Some? then Some(tip.value.signature) else None;
    var current := cfg.hash(Block(payload.(previous := previous)));
    var root :=
      if previous.None? || previous.value == "" then Some(RootHash(cfg, tenant, payload.traceId, current))
      else tip.value.root;
    ComputedHashes(current, previous, root)
  }

  predicate VerifySingleBinding(cfg: Config, b: Binding) {
    b.signature == cfg.hash(Block(b.fields))
  }

  // ---------------------------------------------------------------- accepted ledgers

  /** Row `i` continues the rows before it. */
  ghost predicate RowOk(cfg: Config, tenant: string, rows: seq<Binding>, i: nat)
    requires i < |rows|
  {
    && (i > 0 ==> rows[i - 1].position < rows[i].position)
    && rows[i].fields.previous == (if i == 0 then None else Some(rows[i - 1].signature))
    && VerifySingleBinding(cfg, rows[i])
    && rows[i].root == Some(RootHash(cfg, tenant, rows[0].fields.traceId, rows[0].signature))
  }

  ghost predicate Accepted(cfg: Config, tenant: string, rows: seq<Binding>) {
    forall i :: 0 <= i < |rows| ==> RowOk(cfg, tenant, rows, i)
  }

  /** What the verifier must report about its first bad row. */
  ghost predicate FirstFault(cfg: Config, tenant: string, rows: seq<Binding>, i: nat, reason: Reason)
    requires i < |rows|
  {
    && Accepted(cfg, tenant, rows[..i]) && !RowOk(cfg, tenant, rows, i)
    && var monotonic := i > 0 ==> rows[i - 1].position < rows[i].position;
       var linked := rows[i].fields.previous == (if i == 0 then None else Some(rows[i - 1].signature));
       var signed := VerifySingleBinding(cfg, rows[i]);
       reason == (if !monotonic then NotMonotonic else if !linked then PreviousMismatch
                  else if !signed then HashMismatch else RootMismatch)
  }

  lemma SuccessorLink(cfg: Config, tenant: string, rows: seq<Binding>, k: nat)
    requires Accepted(cfg, tenant, rows) && k + 1 < |rows|
    ensures rows[k + 1].fields.previous == Some(rows[k].signature)
  {
    assert RowOk(cfg, tenant, rows, k + 1);
  }

  lemma PrefixRows(cfg: Config, tenant: string, rows: seq<Binding>, n: nat)
    requires n <= |rows| && forall i :: 0 <= i < n ==> RowOk(cfg, tenant, rows, i)
    ensures Accepted(cfg, tenant, rows[..n])
  {
    forall i | 0 <= i < n ensures RowOk(cfg, tenant, rows[..n], i) {
      assert RowOk(cfg, tenant, rows, i);
    }
  }

  /**
   The verifier: an optional fork scan of one trace, then one pass over the tenant's rows
   that rolls the expected hashes forward and stops at the first bad row.
   */
  method VerifyChainIntegrity(cfg: Config, table: seq<Binding>, tenant: string, scanTrace: Option<string>)
    returns (verdict: Verdict)
    ensures verdict.Valid? <==>
      && Accepted(cfg, tenant, Ledger(table, tenant))
      && (scanTrace.Some? ==> DetectTraceFork(table, scanTrace.value).NoFork?)
    ensures verdict.Broken? ==>
      exists i :: 0 <= i < |Ledger(table, tenant)| && Ledger(table, tenant)[i].id == verdict.id
        && FirstFault(cfg, tenant, Ledger(table, tenant), i, verdict.reason)
    ensures verdict.ForkDetected? <==> scanTrace.Some? && DetectTraceFork(table, scanTrace.value).Fork?
    ensures verdict.ForkDetected? ==>
      var scan := DetectTraceFork(table, scanTrace.value);
      verdict.point == scan.point && verdict.successors == |scan.branches|
  {
    if scanTrace.Some? {
      var scan := DetectTraceFork(table, scanTrace.value);
      if scan.Fork? {
        return ForkDetected(scan.point, |scan.branches|);
      }
    }
    var rows := Ledger(table, tenant);
    var expectedPrevious: Option<string> := None;
    var expectedRoot: Option<string> := None;
    var lastPosition: Option<int> := None;
    for i := 0 to |rows|
      invariant forall k :: 0 <= k < i ==> RowOk(cfg, tenant, rows, k)
      invariant expectedPrevious == if i == 0 then None else Some(rows[i - 1].signature)
      invariant expectedPrevious.Some? ==> expectedPrevious.value != ""
      invariant lastPosition == if i == 0 then None else Some(rows[i - 1].position)
      invariant expectedRoot ==
        if i == 0 then None else Some(RootHash(cfg, tenant, rows[0].fields.traceId, rows[0].signature))
    {
      var row := rows[i];
      PrefixRows(cfg, tenant, rows, i);
      if lastPosition.Some? && row.position <= lastPosition.value {
        assert FirstFault(cfg, tenant, rows, i, NotMonotonic);
        return Broken(row.id, NotMonotonic);
      }
      lastPosition := Some(row.position);
      if row.fields.previous != expectedPrevious {
        assert FirstFault(cfg, tenant, rows, i, PreviousMismatch);
        return Broken(row.id, PreviousMismatch);
      }
      if row.signature != cfg.hash(Block(row.fields)) {
        assert FirstFault(cfg, tenant, rows, i, HashMismatch);
        return Broken(row.id, HashMismatch);
      }
      if row.fields.previous.None? || row.fields.previous.value == "" {
        assert i == 0;
        expectedRoot := Some(RootHash(cfg, tenant, row.fields.traceId, row.signature));
      }
      if row.root != expectedRoot {
        assert FirstFault(cfg, tenant, rows, i, RootMismatch);
        return Broken(row.id, RootMismatch);
      }
      expectedPrevious := Some(row.signature);
      assert IsDigest(cfg.hash(Block(row.fields)));
    }
    return Valid;
  }

  // ---------------------------------------------------------------- what roots bind

  /** Two roots agree exactly when tenant, trace, first signature and secret all do. */
  lemma RootHashBinds(hash: Hash, secret: string, tenant: string, traceId: string, signature: string,
                      secret': string, tenant': string, traceId': string, signature': string)
    requires NoPipe(tenant) && NoPipe(traceId) && NoPipe(signature)
    requires NoPipe(tenant') && NoPipe(traceId') && NoPipe(signature')
    requires CollisionFree(hash, {RootBlock(tenant, traceId, signature, secret),
                                  RootBlock(tenant', traceId', signature', secret')})
    ensures RootHash(Config(hash, secret), tenant, traceId, signature)
         == RootHash(Config(hash, secret'), tenant', traceId', signature')
       <==> tenant == tenant' && traceId == traceId' && signature == signature' && secret == secret'
  {
    RootReadsBack(tenant, traceId, signature, secret);
    RootReadsBack(tenant', traceId', signature', secret');
  }

  /**
   A ledger built under another secret, or for another tenant, and otherwise in order: all the
   verifier can say about it is that the root of its first row is wrong.
   */
  lemma ForeignRootsReported(hash: Hash, secret: string, tenant: string, secret': string, tenant': string,
                             rows: seq<Binding>, i: nat, reason: Reason)
    requires Accepted(Config(hash, secret'), tenant', rows) && PrintedTimes(rows) && rows != []
    requires secret != secret' || tenant != tenant'
    requires NoPipe(tenant) && NoPipe(tenant') && NoPipe(rows[0].fields.traceId)
    requires CollisionFree(hash, {RootBlock(tenant, rows[0].fields.traceId, rows[0].signature, secret),
                                  RootBlock(tenant', rows[0].fields.traceId, rows[0].signature, secret')})
    requires i < |rows|
    ensures !Accepted(Config(hash, secret), tenant, rows)
    ensures FirstFault(Config(hash, secret), tenant, rows, i, reason) <==> i == 0 && reason == RootMismatch
  {
    var first := rows[0];
    AcceptedReadable(Config(hash, secret'), tenant', rows, 0);
    assert RowOk(Config(hash, secret'), tenant', rows, 0);
    RootHashBinds(hash, secret, tenant, first.fields.traceId, first.signature,
                  secret', tenant', first.fields.traceId, first.signature);
    assert !RowOk(Config(hash, secret), tenant, rows, 0);
    if i > 0 {
      assert rows[..i][0] == rows[0];
      assert !RowOk(Config(hash, secret), tenant, rows[..i], 0);
    }
  }

  // ---------------------------------------------------------------- appending

  /** A binding computed from the tip and placed after it extends an accepted ledger. */
  lemma AppendKeepsAccepted(cfg: Config, tenant: string, rows: seq<Binding>, b: Binding)
    requires Accepted(cfg, tenant, rows)
    requires rows != [] ==> Last(rows).position < b.position
    requires var h := ComputeChainHash(cfg, Tip(rows), tenant, b.fields);
             b.signature == h.current && b.fields.previous == h.previous && b.root == h.root
    ensures Accepted(cfg, tenant, rows + [b])
  {
    var all := rows + [b];
    assert b.fields == b.fields.(previous := b.fields.previous);
    if rows != [] {
      assert RowOk(cfg, tenant, rows, |rows| - 1);
    }
    forall i | 0 <= i < |all| ensures RowOk(cfg, tenant, all, i) {
      if i < |rows| {
        assert RowOk(cfg, tenant, rows, i);
      }
    }
  }

  // ---------------------------------------------------------------- what acceptance guarantees

  ghost function Blocks(rows: seq<Binding>): set<string> {
    set b | b in rows :: Block(b.fields)
  }

  /** Every time was printed by `toISOString`, so it has no `|`. */
  ghost predicate PrintedTimes(rows: seq<Binding>) {
    forall b :: b in rows ==> NoPipe(b.fields.signedAt)
  }

  lemma AcceptedReadable(cfg: Config, tenant: string, rows: seq<Binding>, i: nat)
    requires Accepted(cfg, tenant, rows) && PrintedTimes(rows) && i < |rows|
    ensures Readable(rows[i].fields) && IsDigest(rows[i].signature)
  {
    assert RowOk(cfg, tenant, rows, i);
    if i > 0 {
      assert RowOk(cfg, tenant, rows, i - 1);
    }
  }

  /** Equal signatures sign equal blocks, so they agree on everything but the free-text split. */
  lemma EqualSignatures(cfg: Config, t: string, a: seq<Binding>, i: nat, u: string, b: seq<Binding>, j: nat)
    requires Accepted(cfg, t, a) && PrintedTimes(a) && Accepted(cfg, u, b) && PrintedTimes(b)
    requires CollisionFree(cfg.hash, Blocks(a) + Blocks(b))
    requires i < |a| && j < |b| && a[i].signature == b[j].signature
    ensures Block(a[i].fields) == Block(b[j].fields)
    ensures a[i].fields.previous == b[j].fields.previous && FreeText(a[i].fields) == FreeText(b[j].fields)
  {
    AcceptedReadable(cfg, t, a, i);
    AcceptedReadable(cfg, u, b, j);
    assert RowOk(cfg, t, a, i) && RowOk(cfg, u, b, j);
    assert Block(a[i].fields) in Blocks(a) && Block(b[j].fields) in Blocks(b);
    BlockEnds(a[i].fields, b[j].fields);
  }

  lemma EqualLinks(cfg: Config, tenant: string, a: seq<Binding>, i: nat, b: seq<Binding>, j: nat)
    requires Accepted(cfg, tenant, a) && PrintedTimes(a) && Accepted(cfg, tenant, b) && PrintedTimes(b)
    requires CollisionFree(cfg.hash, Blocks(a) + Blocks(b))
    requires i < |a| && j < |b| && a[i].signature == b[j].signature
    ensures i == 0 <==> j == 0
    ensures i > 0 && j > 0 ==> a[i - 1].signature == b[j - 1].signature
  {
    assert RowOk(cfg, tenant, a, i) && RowOk(cfg, tenant, b, j);
    EqualSignatures(cfg, tenant, a, i, tenant, b, j);
  }

  /** Accepted ledgers never repeat a signature: a repeat would descend to the genesis row. */
  lemma {:induction false} SignaturesDistinct(cfg: Config, tenant: string, rows: seq<Binding>, i: nat, j: nat)
    requires Accepted(cfg, tenant, rows) && PrintedTimes(rows) && CollisionFree(cfg.hash, Blocks(rows))
    requires i < j < |rows|
    ensures rows[i].signature != rows[j].signature
  {
    if rows[i].signature == rows[j].signature {
      assert Blocks(rows) + Blocks(rows) == Blocks(rows);
      EqualLinks(cfg, tenant, rows, i, rows, j);
      if i > 0 {
        SignaturesDistinct(cfg, tenant, rows, i - 1, j - 1);
      }
    }
  }

  /** Equal signatures sit at equal depth, with equal signatures all the way down. */
  lemma {:induction false} SameDepth(cfg: Config, tenant: string, a: seq<Binding>, i: nat, b: seq<Binding>, j: nat)
    requires Accepted(cfg, tenant, a) && PrintedTimes(a) && Accepted(cfg, tenant, b) && PrintedTimes(b)
    requires CollisionFree(cfg.hash, Blocks(a) + Blocks(b))
    requires i < |a| && j < |b| && a[i].signature == b[j].signature
    ensures i == j && forall k :: 0 <= k <= i ==> a[k].signature == b[k].signature
  {
    EqualLinks(cfg, tenant, a, i, b, j);
    if i > 0 {
      SameDepth(cfg, tenant, a, i - 1, b, j - 1);
    }
  }

  /**
   The tip fixes the whole history. Two ledgers of a tenant that the verifier accepts and
   that end in one signature have the same length and, row by row, the same signature, link,
   time, JSON values and joined free texts; a row whose free texts are clean agrees on every
   hashed field, and a clean first row fixes every root.
   */
  lemma TipFixesHistory(cfg: Config, tenant: string, a: seq<Binding>, b: seq<Binding>)
    requires Accepted(cfg, tenant, a) && PrintedTimes(a) && Accepted(cfg, tenant, b) && PrintedTimes(b)
    requires CollisionFree(cfg.hash, Blocks(a) + Blocks(b))
    requires a != [] && b != [] && Last(a).signature == Last(b).signature
    ensures |a| == |b|
    ensures forall i :: 0 <= i < |a| ==> a[i].signature == b[i].signature && Block(a[i].fields) == Block(b[i].fields)
    ensures forall i :: 0 <= i < |a| && FreeTextClean(a[i].fields) ==> SameContent(a[i].fields, b[i].fields)
    ensures FreeTextClean(a[0].fields) ==> forall i :: 0 <= i < |a| ==> a[i].root == b[i].root
  {
    SameDepth(cfg, tenant, a, |a| - 1, b, |b| - 1);
    forall i | 0 <= i < |a|
      ensures Block(a[i].fields) == Block(b[i].fields)
      ensures FreeTextClean(a[i].fields) ==> SameContent(a[i].fields, b[i].fields)
    {
      EqualSignatures(cfg, tenant, a, i, tenant, b, i);
      AcceptedReadable(cfg, tenant, a, i);
      AcceptedReadable(cfg, tenant, b, i);
      BlockDeterminesFields(a[i].fields);
    }
    if FreeTextClean(a[0].fields) {
      assert a[0].fields.traceId == b[0].fields.traceId;
      forall i | 0 <= i < |a| ensures a[i].root == b[i].root {
        assert RowOk(cfg, tenant, a, i) && RowOk(cfg, tenant, b, i);
      }
    }
  }

  // ---------------------------------------------------------------- forks

  datatype ForkResult = NoFork | Fork(point: string, branches: seq<int>)

  /** The bindings of a trace, in any tenant, that name `hash` as their predecessor. */
  function Successors(table: seq<Binding>, traceId: string, hash: string): seq<Binding> {
    Filter(table, Continuing(traceId, hash))
  }

  predicate Continues(b: Binding, traceId: string, hash: string) {
    b.fields.traceId == traceId && b.fields.previous == Some(hash)
  }

  function Continuing(traceId: string, hash: string): Binding -> bool {
    (b: Binding) => Continues(b, traceId, hash)
  }

  function Ids(rows: seq<Binding>): seq<int> {
    seq(|rows|, i requires 0 <= i < |rows| => rows[i].id)
  }

  /** Looks for a predecessor with more than one successor, from row `k` on. */
  function ForkFrom(table: seq<Binding>, traceId: string, k: nat): ForkResult
    requires k <= |table|
    decreases |table| - k
  {
    if k == |table| then NoFork
    else
      var f := table[k].fields;
      if f.traceId == traceId && f.previous.Some? && |Successors(table, traceId, f.previous.value)| > 1
      then Fork(f.previous.value, Ids(Successors(table, traceId, f.previous.value)))
      else ForkFrom(table, traceId, k + 1)
  }

  function DetectTraceFork(table: seq<Binding>, traceId: string): ForkResult {
    ForkFrom(table, traceId, 0)
  }

  ghost predicate SharePredecessor(table: seq<Binding>, traceId: string, i: nat, j: nat)
    requires i < |table| && j < |table|
  {
    && table[i].fields.traceId == traceId == table[j].fields.traceId
    && table[i].fields.previous.Some? && table[i].fields.previous == table[j].fields.previous
  }

  lemma {:induction false} TwoKept<T(!new)>(s: seq<T>, keep: T -> bool)
    ensures |Filter(s, keep)| >= 1 <==> exists i :: 0 <= i < |s| && keep(s[i])
    ensures |Filter(s, keep)| > 1 <==> exists i, j :: 0 <= i < j < |s| && keep(s[i]) && keep(s[j])
  {
    if s != [] {
      TwoKept(s[1..], keep);
      var t := s[1..];
      assert forall i :: 1 <= i < |s| ==> t[i - 1] == s[i];
      if i :| 0 <= i < |t| && keep(t[i]) {
        assert keep(s[i + 1]);
        if keep(s[0]) {
          assert 0 <= 0 < i + 1 < |s|;
        }
      }
      if i, j :| 0 <= i < j < |t| && keep(t[i]) && keep(t[j]) {
        assert keep(s[i + 1]) && keep(s[j + 1]);
      }
      if i, j :| 0 <= i < j < |s| && keep(s[i]) && keep(s[j]) {
        assert keep(t[j - 1]);
        if i > 0 {
          assert keep(t[i - 1]);
        }
      }
    }
  }

  lemma ForkNeedsTwo(table: seq<Binding>, traceId: string, hash: string) returns (i: nat, j: nat)
    requires |Successors(table, traceId, hash)| > 1
    ensures i < j < |table| && SharePredecessor(table, traceId, i, j)
  {
    var keep := Continuing(traceId, hash);
    TwoKept(table, keep);
    i, j :| 0 <= i < j < |table| && keep(table[i]) && keep(table[j]);
  }

  lemma TwoMakeFork(table: seq<Binding>, traceId: string, i: nat, j: nat)
    requires i < j < |table| && SharePredecessor(table, traceId, i, j)
    ensures |Successors(table, traceId, table[i].fields.previous.value)| > 1
  {
    var keep := Continuing(traceId, table[i].fields.previous.value);
    assert keep(table[i]) && keep(table[j]);
    TwoKept(table, keep);
  }

  /** The scan reports a fork exactly when two bindings of the trace share a predecessor. */
  lemma DetectTraceForkExact(table: seq<Binding>, traceId: string)
    ensures DetectTraceFork(table, traceId).Fork? <==>
      exists i, j :: 0 <= i < j < |table| && SharePredecessor(table, traceId, i, j)
  {
    ForkFromExact(table, traceId, 0);
    if DetectTraceFork(table, traceId).Fork? {
      var k :| 0 <= k < |table| && table[k].fields.traceId == traceId && table[k].fields.previous.Some?
               && |Successors(table, traceId, table[k].fields.previous.value)| > 1;
      var i, j := ForkNeedsTwo(table, traceId, table[k].fields.previous.value);
    }
    if i, j :| 0 <= i < j < |table| && SharePredecessor(table, traceId, i, j) {
      TwoMakeFork(table, traceId, i, j);
    }
  }

  /** The places of the rows that satisfy `keep`. */
  function Places<T(!new)>(s: seq<T>, keep: T -> bool): set<nat> {
    set i: nat | i < |s| && keep(s[i])
  }

  lemma PlacesAppend<T(!new)>(s: seq<T>, x: T, keep: T -> bool)
    ensures Places(s + [x], keep) == Places(s, keep) + if keep(x) then {|s|} else {}
    ensures |s| !in Places(s, keep)
  {
    assert forall i :: 0 <= i < |s| ==> (s + [x])[i] == s[i];
  }

  lemma {:induction false} FilterCounts<T(!new)>(s: seq<T>, keep: T -> bool)
    ensures |Filter(s, keep)| == |Places(s, keep)|
  {
    if s != [] {
      var n := |s| - 1;
      FilterAppend(s[..n], [s[n]], keep);
      FilterCounts(s[..n], keep);
      PlacesAppend(s[..n], s[n], keep);
      assert s == s[..n] + [s[n]];
    }
  }

  /**
   The fork reported is at the predecessor of some row of the trace; its branches are the ids
   of the rows of the trace that name that predecessor, one branch for each.
   */
  lemma ForkIsWhole(table: seq<Binding>, traceId: string)
    requires DetectTraceFork(table, traceId).Fork?
    ensures var fork := DetectTraceFork(table, traceId);
            && |fork.branches| > 1
            && |fork.branches| == |Places(table, Continuing(traceId, fork.point))|
            && forall id :: id in fork.branches <==>
                 exists b :: b in table && Continues(b, traceId, fork.point) && b.id == id
  {
    ForkFromShape(table, traceId, 0);
    var point := DetectTraceFork(table, traceId).point;
    var rows := Successors(table, traceId, point);
    FilterCounts(table, Continuing(traceId, point));
    forall id ensures id in Ids(rows) <==> exists b :: b in table && Continues(b, traceId, point) && b.id == id {
      if b :| b in table && Continues(b, traceId, point) && b.id == id {
        var k :| 0 <= k < |rows| && rows[k] == b;
        assert Ids(rows)[k] == id;
      }
      if id in Ids(rows) {
        var k :| 0 <= k < |rows| && Ids(rows)[k] == id;
        assert rows[k] in rows && Continues(rows[k], traceId, point);
      }
    }
  }

  lemma {:induction false} ForkFromShape(table: seq<Binding>, traceId: string, k: nat)
    requires k <= |table| && ForkFrom(table, traceId, k).Fork?
    ensures var fork := ForkFrom(table, traceId, k);
            var rows := Successors(table, traceId, fork.point);
            |rows| > 1 && fork.branches == Ids(rows)
    decreases |table| - k
  {
    if k < |table| && ForkFrom(table, traceId, k) == ForkFrom(table, traceId, k + 1) {
      ForkFromShape(table, traceId, k + 1);
    }
  }

  lemma {:induction false} ForkFromExact(table: seq<Binding>, traceId: string, k: nat)
    requires k <= |table|
    ensures ForkFrom(table, traceId, k).Fork? <==>
      exists i :: k <= i < |table| && table[i].fields.traceId == traceId && table[i].fields.previous.Some?
                  && |Successors(table, traceId, table[i].fields.previous.value)| > 1
    decreases |table| - k
  {
    if k < |table| {
      ForkFromExact(table, traceId, k + 1);
    }
  }

  lemma NoSharedPredecessor(cfg: Config, tenant: string, rows: seq<Binding>, traceId: string, i: nat, j: nat)
    requires Accepted(cfg, tenant, rows) && PrintedTimes(rows) && CollisionFree(cfg.hash, Blocks(rows))
    requires i < j < |rows|
    ensures !SharePredecessor(rows, traceId, i, j)
  {
    assert RowOk(cfg, tenant, rows, i) && RowOk(cfg, tenant, rows, j);
    if i > 0 {
      SignaturesDistinct(cfg, tenant, rows, i - 1, j - 1);
    }
  }

  /** In one tenant's accepted ledger no predecessor has two successors, whatever the trace. */
  lemma AcceptedHasNoFork(cfg: Config, tenant: string, rows: seq<Binding>, traceId: string)
    requires Accepted(cfg, tenant, rows) && PrintedTimes(rows) && CollisionFree(cfg.hash, Blocks(rows))
    ensures DetectTraceFork(rows, traceId).NoFork?
  {
    DetectTraceForkExact(rows, traceId);
    forall i, j | 0 <= i < j < |rows| ensures !SharePredecessor(rows, traceId, i, j) {
      NoSharedPredecessor(cfg, tenant, rows, traceId, i, j);
    }
  }

  // ---------------------------------------------------------------- the scan over all tenants

  /** The verifier accepts every tenant's ledger. */
  ghost predicate AllAccepted(cfg: Config, table: seq<Binding>) {
    forall tenant :: Accepted(cfg, tenant, Ledger(table, tenant))
  }

  lemma LedgerHolds(table: seq<Binding>, tenant: string)
    ensures multiset(Ledger(table, tenant)) == multiset(Rows(table, tenant))
    ensures forall b :: b in Ledger(table, tenant) <==> b in table && b.tenant == tenant
  {
    Ordering.SortIsSortedPermutation(PositionLeq(), Rows(table, tenant));
    Ordering.SameElements(Rows(table, tenant), Ledger(table, tenant));
  }

  lemma LedgerInherits(cfg: Config, table: seq<Binding>, tenant: string)
    requires PrintedTimes(table) && CollisionFree(cfg.hash, Blocks(table))
    ensures PrintedTimes(Ledger(table, tenant)) && CollisionFree(cfg.hash, Blocks(Ledger(table, tenant)))
    ensures Blocks(Ledger(table, tenant)) <= Blocks(table)
  {
    LedgerHolds(table, tenant);
  }

  /** Two rows of a tenant stand at two places of its ledger. */
  lemma LedgerPair(table: seq<Binding>, i: nat, j: nat) returns (a: nat, b: nat)
    requires i < j < |table| && table[i].tenant == table[j].tenant
    ensures var rows := Ledger(table, table[i].tenant);
            a < |rows| && b < |rows| && a != b && rows[a] == table[i] && rows[b] == table[j]
  {
    var tenant := table[i].tenant;
    var rows := Ledger(table, tenant);
    LedgerHolds(table, tenant);
    a :| 0 <= a < |rows| && rows[a] == table[i];
    if table[i] != table[j] {
      b :| 0 <= b < |rows| && rows[b] == table[j];
    } else {
      RowsTwice(table, i, j);
      b := OtherPlace(rows, a);
    }
  }

  lemma RowsTwice(table: seq<Binding>, i: nat, j: nat)
    requires i < j < |table| && table[i] == table[j]
    ensures multiset(Rows(table, table[i].tenant))[table[i]] >= 2
  {
    var keep := (b: Binding) => b.tenant == table[i].tenant;
    assert table == table[..j] + table[j..];
    FilterAppend(table[..j], table[j..], keep);
    assert table[i] in table[..j] && table[j] in table[j..];
    assert table[i] in Filter(table[..j], keep) && table[j] in Filter(table[j..], keep);
  }

  lemma OtherPlace(rows: seq<Binding>, a: nat) returns (b: nat)
    requires a < |rows| && multiset(rows)[rows[a]] >= 2
    ensures b < |rows| && b != a && rows[b] == rows[a]
  {
    assert rows == rows[..a] + [rows[a]] + rows[a + 1..];
    assert rows[a] in multiset(rows[..a]) + multiset(rows[a + 1..]);
    if rows[a] in rows[..a] {
      b :| 0 <= b < a && rows[..a][b] == rows[a];
    } else {
      var c :| 0 <= c < |rows[a + 1..]| && rows[a + 1..][c] == rows[a];
      b := a + 1 + c;
    }
  }

  /**
   On the whole table, whose every ledger the verifier accepts, the scan of a trace reports a
   fork exactly when two tenants share a predecessor on it.
   */
  lemma TableForkExact(cfg: Config, table: seq<Binding>, traceId: string)
    requires AllAccepted(cfg, table) && PrintedTimes(table) && CollisionFree(cfg.hash, Blocks(table))
    ensures DetectTraceFork(table, traceId).Fork? <==>
      exists i, j :: 0 <= i < j < |table|
        && table[i].tenant != table[j].tenant && SharePredecessor(table, traceId, i, j)
  {
    DetectTraceForkExact(table, traceId);
    forall i, j | 0 <= i < j < |table| && SharePredecessor(table, traceId, i, j)
      ensures table[i].tenant != table[j].tenant
    {
      if table[i].tenant == table[j].tenant {
        var rows := Ledger(table, table[i].tenant);
        var a, b := LedgerPair(table, i, j);
        LedgerInherits(cfg, table, table[i].tenant);
        NoSharedPredecessor(cfg, table[i].tenant, rows, traceId, if a < b then a else b, if a < b then b else a);
        assert false;
      }
    }
  }

  /** No authorisation context recurs with another tenant, as none does that has a fresh id. */
  ghost predicate ContextsPerTenant(table: seq<Binding>) {
    forall b, c :: b in table && c in table && b.tenant != c.tenant ==> !Equivalent(b.fields.auth, c.fields.auth)
  }

  lemma PredecessorInLedger(cfg: Config, table: seq<Binding>, b: Binding) returns (k: nat)
    requires AllAccepted(cfg, table) && b in table && b.fields.previous.Some?
    ensures k < |Ledger(table, b.tenant)| && Ledger(table, b.tenant)[k].signature == b.fields.previous.value
  {
    var rows := Ledger(table, b.tenant);
    LedgerHolds(table, b.tenant);
    assert Accepted(cfg, b.tenant, rows);
    var i :| 0 <= i < |rows| && rows[i] == b;
    assert RowOk(cfg, b.tenant, rows, i);
    k := i - 1;
  }

  /** Two tenants that share a predecessor share the authorisation context it was signed with. */
  lemma SharedPredecessorSharesContext(cfg: Config, table: seq<Binding>, b: Binding, c: Binding)
    requires AllAccepted(cfg, table) && PrintedTimes(table) && CollisionFree(cfg.hash, Blocks(table))
    requires b in table && c in table && b.tenant != c.tenant
    requires b.fields.previous.Some? && b.fields.previous == c.fields.previous
    ensures !ContextsPerTenant(table)
  {
    var bs, cs := Ledger(table, b.tenant), Ledger(table, c.tenant);
    var i := PredecessorInLedger(cfg, table, b);
    var j := PredecessorInLedger(cfg, table, c);
    LedgerHolds(table, b.tenant);
    LedgerHolds(table, c.tenant);
    LedgerInherits(cfg, table, b.tenant);
    LedgerInherits(cfg, table, c.tenant);
    EqualSignatures(cfg, b.tenant, bs, i, c.tenant, cs, j);
    AcceptedReadable(cfg, b.tenant, bs, i);
    AcceptedReadable(cfg, c.tenant, cs, j);
    BlockEnds(bs[i].fields, cs[j].fields);
    assert bs[i] in table && cs[j] in table;
  }

  /** So while contexts do not recur across tenants the scan finds no fork on any trace. */
  lemma FreshContextsNoFork(cfg: Config, table: seq<Binding>, traceId: string)
    requires AllAccepted(cfg, table) && PrintedTimes(table) && CollisionFree(cfg.hash, Blocks(table))
    requires ContextsPerTenant(table)
    ensures DetectTraceFork(table, traceId).NoFork?
  {
    TableForkExact(cfg, table, traceId);
    if i, j :| 0 <= i < j < |table| && table[i].tenant != table[j].tenant && SharePredecessor(table, traceId, i, j) {
      SharedPredecessorSharesContext(cfg, table, table[i], table[j]);
      assert false;
    }
  }

  // ---------------------------------------------------------------- the fork service's own loop

  function OfTrace(rows: seq<Binding>, traceId: string): seq<Binding> {
    Filter(rows, (b: Binding) => b.fields.traceId == traceId)
  }

  lemma OfTraceAppend(rows: seq<Binding>, row: Binding, traceId: string)
    ensures OfTrace(rows + [row], traceId)
         == OfTrace(rows, traceId) + (if row.fields.traceId == traceId then [row] else [])
  {
    FilterAppend(rows, [row], (b: Binding) => b.fields.traceId == traceId);
  }

  ghost predicate TraceLinked(rows: seq<Binding>) {
    forall i :: 0 < i < |rows| ==>
      rows[i - 1].position < rows[i].position && rows[i].fields.previous == Some(rows[i - 1].signature)
  }

  /** The fork service walks the rows of one trace of the tenant. */
  method VerifyTraceIntegrity(table: seq<Binding>, tenant: string, traceId: string) returns (valid: bool)
    ensures valid <==>
      && DetectTraceFork(Ledger(table, tenant), traceId).NoFork?
      && TraceLinked(OfTrace(Ledger(table, tenant), traceId))
  {
    var ledger := Ledger(table, tenant);
    if DetectTraceFork(ledger, traceId).Fork? {
      return false;
    }
    var rows := OfTrace(ledger, traceId);
    var lastPosition: Option<int> := None;
    var lastSignature: Option<string> := None;
    for i := 0 to |rows|
      invariant forall k :: 0 < k < i ==>
        rows[k - 1].position < rows[k].position && rows[k].fields.previous == Some(rows[k - 1].signature)
      invariant lastPosition == if i == 0 then None else Some(rows[i - 1].position)
      invariant lastSignature == if i == 0 then None else Some(rows[i - 1].signature)
    {
      if lastPosition.Some? && rows[i].position <= lastPosition.value {
        return false;
      }
      if lastSignature.Some? && rows[i].fields.previous != Some(lastSignature.value) {
        return false;
      }
      lastPosition := Some(rows[i].position);
      lastSignature := Some(rows[i].signature);
    }
    return true;
  }

  /** The trace's bindings stand next to each other in the tenant's ledger. */
  ghost predicate Contiguous(rows: seq<Binding>, traceId: string) {
    forall i, j, k :: 0 <= i < j < k < |rows| && rows[i].fields.traceId == traceId == rows[k].fields.traceId
      ==> rows[j].fields.traceId == traceId
  }

  function LastOf(rows: seq<Binding>, traceId: string): (m: int)
    ensures -1 <= m < |rows|
    ensures m >= 0 ==> rows[m].fields.traceId == traceId
    ensures forall k :: m < k < |rows| ==> rows[k].fields.traceId != traceId
  {
    if rows == [] then -1
    else if Last(rows).fields.traceId == traceId then |rows| - 1
    else LastOf(rows[..|rows| - 1], traceId)
  }

  lemma {:induction false} LastKept(rows: seq<Binding>, traceId: string)
    ensures var kept := OfTrace(rows, traceId);
            var m := LastOf(rows, traceId);
            if m < 0 then kept == [] else kept != [] && Last(kept) == rows[m]
  {
    if rows != [] {
      var n := |rows| - 1;
      assert rows == rows[..n] + [rows[n]];
      OfTraceAppend(rows[..n], rows[n], traceId);
      LastKept(rows[..n], traceId);
    }
  }

  lemma ContiguousAppend(front: seq<Binding>, row: Binding, traceId: string)
    ensures Contiguous(front + [row], traceId) <==>
      && Contiguous(front, traceId)
      && (row.fields.traceId == traceId && LastOf(front, traceId) >= 0 ==> LastOf(front, traceId) == |front| - 1)
  {
    var all, m, n := front + [row], LastOf(front, traceId), |front|;
    assert all[n] == row && forall i :: 0 <= i < n ==> all[i] == front[i];
    if Contiguous(all, traceId) {
      forall i, j, k | 0 <= i < j < k < n && front[i].fields.traceId == traceId == front[k].fields.traceId
        ensures front[j].fields.traceId == traceId
      {
        assert all[i] == front[i] && all[j] == front[j] && all[k] == front[k];
      }
    }
    if row.fields.traceId == traceId && 0 <= m < n - 1 {
      assert all[m].fields.traceId == traceId == all[n].fields.traceId && all[m + 1].fields.traceId != traceId;
      assert !Contiguous(all, traceId);
    }
  }

  lemma {:induction false} ContiguousWhenLinked(
    cfg: Config, tenant: string, rows: seq<Binding>, n: nat, traceId: string)
    requires Accepted(cfg, tenant, rows) && PrintedTimes(rows) && CollisionFree(cfg.hash, Blocks(rows))
    requires n <= |rows|
    ensures TraceLinked(OfTrace(rows[..n], traceId))
       <==> Contiguous(rows[..n], traceId)
  {
    if n > 0 {
      var front, row := rows[..n - 1], rows[n - 1];
      assert rows[..n] == front + [row];
      ContiguousWhenLinked(cfg, tenant, rows, n - 1, traceId);
      ContiguousAppend(front, row, traceId);
      OfTraceAppend(front, row, traceId);
      LastKept(front, traceId);
      assert OfTrace(front, traceId) + [] == OfTrace(front, traceId);
      if row.fields.traceId == traceId && LastOf(front, traceId) >= 0 {
        NextOfTrace(cfg, tenant, rows, LastOf(front, traceId), n - 1);
        LinkedAppend(OfTrace(front, traceId), row);
      }
    }
  }

  lemma NextOfTrace(cfg: Config, tenant: string, rows: seq<Binding>, m: nat, n: nat)
    requires Accepted(cfg, tenant, rows) && PrintedTimes(rows) && CollisionFree(cfg.hash, Blocks(rows))
    requires m < n < |rows|
    ensures rows[n].fields.previous == Some(rows[m].signature) <==> m == n - 1
    ensures rows[m].position < rows[n].position
  {
    assert RowOk(cfg, tenant, rows, n);
    if m < n - 1 {
      SignaturesDistinct(cfg, tenant, rows, m, n - 1);
    }
    PositionsIncrease(cfg, tenant, rows, m, n);
  }

  lemma {:induction false} PositionsIncrease(cfg: Config, tenant: string, rows: seq<Binding>, i: nat, j: nat)
    requires Accepted(cfg, tenant, rows) && i < j < |rows|
    ensures rows[i].position < rows[j].position
    decreases j
  {
    assert RowOk(cfg, tenant, rows, j);
    if i < j - 1 {
      PositionsIncrease(cfg, tenant, rows, i, j - 1);
    }
  }

  lemma LinkedAppend(kept: seq<Binding>, row: Binding)
    requires kept != [] && Last(kept).position < row.position
    ensures TraceLinked(kept + [row]) <==> TraceLinked(kept) && row.fields.previous == Some(Last(kept).signature)
  {
    var all := kept + [row];
    if TraceLinked(all) {
      forall i | 0 < i < |kept|
        ensures kept[i - 1].position < kept[i].position && kept[i].fields.previous == Some(kept[i - 1].signature)
      {
        assert all[i - 1] == kept[i - 1] && all[i] == kept[i];
      }
      assert all[|kept|] == row && all[|kept| - 1] == Last(kept);
    }
  }

  /**
   On a tenant the chain verifier accepts, the fork service's per-trace check says valid
   exactly when no other trace interleaves with the one it walks.
   */
  lemma TraceCheckExact(cfg: Config, table: seq<Binding>, tenant: string, traceId: string)
    requires var rows := Ledger(table, tenant);
             Accepted(cfg, tenant, rows) && PrintedTimes(rows) && CollisionFree(cfg.hash, Blocks(rows))
    ensures var rows := Ledger(table, tenant);
            && DetectTraceFork(rows, traceId).NoFork?
            && (TraceLinked(OfTrace(rows, traceId)) <==> Contiguous(rows, traceId))
  {
    AcceptedHasNoFork(cfg, tenant, Ledger(table, tenant), traceId);
    var rows := Ledger(table, tenant);
    ContiguousWhenLinked(cfg, tenant, rows, |rows|, traceId);
    assert rows[..|rows|] == rows;
  }
}
