/**
 Concurrent appends to the audit ledger: each transaction reads the tenant's tip, signs its
 binding, takes a chain position, places the row under a unique index and commits or aborts,
 with its steps interleaved with every other transaction's in any order.
 */
module AuditAppend {
  import opened Common
  import opened AuditBlock
  import opened Digests
  import opened AuditChain
  import JsonText
  import Ordering

  /** Which rows the unique index lets exist only once per predecessor, absent ones included. */
  datatype Key = PerTenant | PerTrace

  predicate Conflict(key: Key, a: Binding, b: Binding) {
    a.fields.previous == b.fields.previous
    && match key
       case PerTenant => a.tenant == b.tenant
       case PerTrace => a.fields.traceId == b.fields.traceId
  }

  /** A transaction: signed, waiting at the index with a position, or placed but not committed. */
  datatype Tx = Signed(b: Binding) | Waiting(b: Binding) | Placed(b: Binding)

  datatype State = State(table: seq<Binding>, next: nat, open: map<int, Tx>)

  datatype Action =
    | ReadTip(tx: int, tenant: string, payload: Fields)
    | TakePosition(tx: int)
    | Place(tx: int)
    | Commit(tx: int)
    | Abort(tx: int)

  const EMPTY := State([], 1, map[])

  /** One step; an action that does not apply changes nothing. */
  function Step(cfg: Config, key: Key, s: State, a: Action): State {
    match a
    case ReadTip(tx, tenant, payload) =>
      if tx in s.open then s
      else
        var h := ComputeChainHash(cfg, Tip(Ledger(s.table, tenant)), tenant, payload);
        var b := Binding(tx, tenant, 0, payload.(previous := h.previous), h.current, h.root);
        s.(open := s.open[tx := Signed(b)])
    case TakePosition(tx) =>
      if tx in s.open && s.open[tx].Signed?
      then s.(next := s.next + 1, open := s.open[tx := Waiting(s.open[tx].b.(position := s.next))])
      else s
    case Place(tx) =>
      if tx !in s.open || !s.open[tx].Waiting? then s
      else if exists r :: r in s.table && Conflict(key, s.open[tx].b, r) then s.(open := s.open - {tx})
      else if exists other ::
        other in s.open && s.open[other].Placed? && Conflict(key, s.open[tx].b, s.open[other].b) then s
      else s.(open := s.open[tx := Placed(s.open[tx].b)])
    case Commit(tx) =>
      if tx in s.open && s.open[tx].Placed?
      then s.(table := s.table + [s.open[tx].b], open := s.open - {tx})
      else s
    case Abort(tx) => s.(open := s.open - {tx})
  }

  function Run(cfg: Config, key: Key, s: State, actions: seq<Action>): State
    decreases |actions|
  {
    if actions == [] then s else Run(cfg, key, Step(cfg, key, s, actions[0]), actions[1..])
  }

  // ---------------------------------------------------------------- the invariant

  /** The binding is signed over a genesis link, or over a row already committed. */
  ghost predicate LinksBack(cfg: Config, table: seq<Binding>, b: Binding) {
    && VerifySingleBinding(cfg, b)
    && if b.fields.previous.None?
       then b.root == Some(RootHash(cfg, b.tenant, b.fields.traceId, b.signature))
       else exists r :: r in table && r.tenant == b.tenant && b.fields.previous == Some(r.signature) && b.root == r.root
  }

  /** Its predecessor was committed before it took its position. */
  ghost predicate AfterPredecessor(table: seq<Binding>, b: Binding) {
    b.fields.previous.Some? ==>
      exists r :: r in table && r.tenant == b.tenant && b.fields.previous == Some(r.signature)
                  && b.root == r.root && r.position < b.position
  }

  ghost predicate Linked(cfg: Config, s: State) {
    && (forall tx :: tx in s.open ==> LinksBack(cfg, s.table, s.open[tx].b))
    && (forall tx :: tx in s.open && !s.open[tx].Signed? ==> AfterPredecessor(s.table, s.open[tx].b))
  }

  ghost predicate PositionsTaken(s: State) {
    && (forall r :: r in s.table ==> r.position < s.next)
    && (forall tx :: tx in s.open && !s.open[tx].Signed? ==> s.open[tx].b.position < s.next)
  }

  ghost predicate IndexHolds(s: State) {
    && (forall tx, r :: tx in s.open && s.open[tx].Placed? && r in s.table ==> !Conflict(PerTenant, s.open[tx].b, r))
    && (forall tx, other ::
          tx in s.open && other in s.open && tx != other && s.open[tx].Placed? && s.open[other].Placed?
          ==> !Conflict(PerTenant, s.open[tx].b, s.open[other].b))
  }

  ghost predicate Inv(cfg: Config, s: State) {
    && (forall tenant :: Accepted(cfg, tenant, Rows(s.table, tenant)))
    && Linked(cfg, s)
    && PositionsTaken(s)
    && IndexHolds(s)
  }

  lemma RowsAppend(table: seq<Binding>, b: Binding, tenant: string)
    ensures Rows(table + [b], tenant) == Rows(table, tenant) + (if b.tenant == tenant then [b] else [])
  {
    FilterAppend(table, [b], (r: Binding) => r.tenant == tenant);
  }

  /** Rows committed in chain order need no sorting. */
  lemma LedgerIsRows(cfg: Config, table: seq<Binding>, tenant: string)
    requires Accepted(cfg, tenant, Rows(table, tenant))
    ensures Ledger(table, tenant) == Rows(table, tenant)
  {
    var rows := Rows(table, tenant);
    forall i, j | 0 <= i < j < |rows| ensures rows[i].position < rows[j].position {
      PositionsIncrease(cfg, tenant, rows, i, j);
    }
    assert Ordering.TieFree(PositionLeq(), rows) by {
      forall a, b | a in rows && b in rows && a.position == b.position ensures a == b {
        var i :| 0 <= i < |rows| && rows[i] == a;
        var j :| 0 <= j < |rows| && rows[j] == b;
      }
    }
    Ordering.SortKeepsSorted(PositionLeq(), rows);
  }

  // ---------------------------------------------------------------- one undisturbed request

  /** The ledger table as one request changes it when no other transaction runs. */
  class OperatorLedger {
    const cfg: Config
    var table: seq<Binding>
    var next: nat

    ghost predicate Valid()
      reads this
    {
      && (forall tenant :: Accepted(cfg, tenant, Rows(table, tenant)))
      && (forall r :: r in table ==> r.position < next)
    }

    constructor (cfg: Config)
      ensures Valid() && table == [] && this.cfg == cfg
    {
      this.cfg, table, next := cfg, [], 1;
    }

    /** BEGIN, read the tip, hash, INSERT, COMMIT; the insert fails if the predecessor is taken. */
    method RecordOperatorAction(id: int, tenant: string, payload: Fields) returns (ok: bool)
      requires Valid()
      modifies this`table, this`next
      ensures Valid() && next == old(next) + 1
      ensures var link := ComputeChainHash(cfg, Tip(Rows(old(table), tenant)), tenant, payload).previous;
              && (ok <==> forall r :: r in old(table) && r.tenant == tenant ==> r.fields.previous != link)
              && (ok ==> table != [] && table[..|table| - 1] == old(table)
                         && Last(table).id == id && Last(table).tenant == tenant && Last(table).position == old(next)
                         && Last(table).fields == payload.(previous := link))
              && (!ok ==> table == old(table))
    {
      LedgerIsRows(cfg, table, tenant);
      var h := ComputeChainHash(cfg, Tip(Ledger(table, tenant)), tenant, payload);
      var b := Binding(id, tenant, next, payload.(previous := h.previous), h.current, h.root);
      next := next + 1;
      if exists r :: r in table && Conflict(PerTenant, b, r) {
        return false;
      }
      AppendValid(cfg, table, b, payload);
      table := table + [b];
      return true;
    }
  }

  lemma AppendValid(cfg: Config, table: seq<Binding>, b: Binding, payload: Fields)
    requires forall tenant :: Accepted(cfg, tenant, Rows(table, tenant))
    requires forall r :: r in table ==> r.position < b.position
    requires var h := ComputeChainHash(cfg, Tip(Rows(table, b.tenant)), b.tenant, payload);
             b.signature == h.current && b.fields == payload.(previous := h.previous) && b.root == h.root
    ensures forall tenant :: Accepted(cfg, tenant, Rows(table + [b], tenant))
  {
    var rows := Rows(table, b.tenant);
    if rows != [] {
      assert Last(rows) in rows && Last(rows) in table;
    }
    assert b.fields.(previous := b.fields.previous) == payload.(previous := b.fields.previous);
    AppendKeepsAccepted(cfg, b.tenant, rows, b);
    forall tenant ensures Accepted(cfg, tenant, Rows(table + [b], tenant)) {
      RowsAppend(table, b, tenant);
      assert Rows(table, tenant) + [] == Rows(table, tenant);
    }
  }

  /** The tip of an accepted ledger has no successor yet, so an undisturbed request succeeds. */
  lemma TipIsFree(cfg: Config, tenant: string, rows: seq<Binding>, payload: Fields, k: nat)
    requires Accepted(cfg, tenant, rows) && PrintedTimes(rows) && CollisionFree(cfg.hash, Blocks(rows))
    requires k < |rows|
    ensures rows[k].fields.previous != ComputeChainHash(cfg, Tip(rows), tenant, payload).previous
  {
    assert RowOk(cfg, tenant, rows, k);
    if k > 0 {
      SignaturesDistinct(cfg, tenant, rows, k - 1, |rows| - 1);
    }
  }

  // ---------------------------------------------------------------- every step keeps the invariant

  lemma ReadTipKeeps(cfg: Config, s: State, a: Action)
    requires Inv(cfg, s) && a.ReadTip?
    ensures Inv(cfg, Step(cfg, PerTenant, s, a))
  {
    if a.tx !in s.open {
      var rows := Rows(s.table, a.tenant);
      LedgerIsRows(cfg, s.table, a.tenant);
      var s' := Step(cfg, PerTenant, s, a);
      var b := s'.open[a.tx].b;
      if rows != [] {
        assert RowOk(cfg, a.tenant, rows, |rows| - 1);
        assert IsDigest(Last(rows).signature);
        assert Last(rows) in s.table && Last(rows).tenant == a.tenant;
      }
      assert LinksBack(cfg, s.table, b);
    }
  }

  lemma TakePositionKeeps(cfg: Config, s: State, a: Action)
    requires Inv(cfg, s) && a.TakePosition?
    ensures Inv(cfg, Step(cfg, PerTenant, s, a))
  {
    if a.tx in s.open && s.open[a.tx].Signed? {
      var b := s.open[a.tx].b;
      var placed := b.(position := s.next);
      assert LinksBack(cfg, s.table, b);
      assert LinksBack(cfg, s.table, placed);
      assert AfterPredecessor(s.table, placed);
    }
  }

  lemma PlacedIndexHolds(s: State, tx: int)
    requires IndexHolds(s) && tx in s.open
    requires forall r :: r in s.table ==> !Conflict(PerTenant, s.open[tx].b, r)
    requires forall other :: other in s.open && s.open[other].Placed? ==>
               !Conflict(PerTenant, s.open[tx].b, s.open[other].b)
    ensures IndexHolds(s.(open := s.open[tx := Placed(s.open[tx].b)]))
  {
  }

  /** A step that only drops transactions or changes their phase, keeping their bindings. */
  lemma SameBindingsKeep(cfg: Config, s: State, open: map<int, Tx>)
    requires Inv(cfg, s)
    requires forall tx :: tx in open ==>
               tx in s.open && open[tx].b == s.open[tx].b && (s.open[tx].Signed? ==> open[tx].Signed?)
    ensures Linked(cfg, s.(open := open)) && PositionsTaken(s.(open := open))
  {
  }

  lemma PlaceKeeps(cfg: Config, s: State, a: Action)
    requires Inv(cfg, s) && a.Place?
    ensures Inv(cfg, Step(cfg, PerTenant, s, a))
  {
    if a.tx in s.open && s.open[a.tx].Waiting? {
      var b := s.open[a.tx].b;
      if exists r :: r in s.table && Conflict(PerTenant, b, r) {
        SameBindingsKeep(cfg, s, s.open - {a.tx});
      } else if !exists other :: other in s.open && s.open[other].Placed? && Conflict(PerTenant, b, s.open[other].b) {
        SameBindingsKeep(cfg, s, s.open[a.tx := Placed(b)]);
        PlacedIndexHolds(s, a.tx);
      }
    }
  }

  lemma GenesisLink(cfg: Config, tenant: string, rows: seq<Binding>)
    requires Accepted(cfg, tenant, rows) && rows != []
    ensures rows[0].fields.previous == None
  {
    assert RowOk(cfg, tenant, rows, 0);
  }

  /** The placed row continues the tip: no other row can have taken its predecessor. */
  lemma PlacedContinuesTip(cfg: Config, s: State, tx: int)
    requires Inv(cfg, s) && tx in s.open && s.open[tx].Placed?
    ensures var b := s.open[tx].b;
            Accepted(cfg, b.tenant, Rows(s.table, b.tenant) + [b])
  {
    var b := s.open[tx].b;
    var rows := Rows(s.table, b.tenant);
    if b.fields.previous.None? {
      if rows != [] {
        GenesisLink(cfg, b.tenant, rows);
        assert false;
      }
    } else {
      assert AfterPredecessor(s.table, b);
      var r :| r in s.table && r.tenant == b.tenant && b.fields.previous == Some(r.signature)
               && b.root == r.root && r.position < b.position;
      assert r in rows;
      var k :| 0 <= k < |rows| && rows[k] == r;
      if k + 1 < |rows| {
        SuccessorLink(cfg, b.tenant, rows, k);
        assert false;
      }
      assert RowOk(cfg, b.tenant, rows, k);
      assert IsDigest(r.signature);
    }
    assert LinksBack(cfg, s.table, b);
    assert b.fields == b.fields.(previous := b.fields.previous);
    AppendKeepsAccepted(cfg, b.tenant, rows, b);
  }

  lemma CommitKeeps(cfg: Config, s: State, a: Action)
    requires Inv(cfg, s) && a.Commit?
    ensures Inv(cfg, Step(cfg, PerTenant, s, a))
  {
    if a.tx in s.open && s.open[a.tx].Placed? {
      var b := s.open[a.tx].b;
      var s' := Step(cfg, PerTenant, s, a);
      PlacedContinuesTip(cfg, s, a.tx);
      forall tenant ensures Accepted(cfg, tenant, Rows(s'.table, tenant)) {
        RowsAppend(s.table, b, tenant);
        assert Accepted(cfg, tenant, Rows(s.table, tenant));
        assert Rows(s.table, tenant) + [] == Rows(s.table, tenant);
      }
      forall tx | tx in s'.open
        ensures LinksBack(cfg, s'.table, s'.open[tx].b)
        ensures !s'.open[tx].Signed? ==> AfterPredecessor(s'.table, s'.open[tx].b)
      {
        assert LinksBack(cfg, s.table, s.open[tx].b);
        assert forall r :: r in s.table ==> r in s'.table;
      }
    }
  }

  lemma {:induction false} RunKeeps(cfg: Config, s: State, actions: seq<Action>)
    requires Inv(cfg, s)
    ensures Inv(cfg, Run(cfg, PerTenant, s, actions))
    decreases |actions|
  {
    if actions != [] {
      var a := actions[0];
      match a {
        case ReadTip(_, _, _) => ReadTipKeeps(cfg, s, a);
        case TakePosition(_) => TakePositionKeeps(cfg, s, a);
        case Place(_) => PlaceKeeps(cfg, s, a);
        case Commit(_) => CommitKeeps(cfg, s, a);
        case Abort(_) =>
      }
      RunKeeps(cfg, Step(cfg, PerTenant, s, a), actions[1..]);
    }
  }

  ghost predicate AlwaysAccepted(cfg: Config, key: Key) {
    forall actions, tenant :: Accepted(cfg, tenant, Ledger(Run(cfg, key, EMPTY, actions).table, tenant))
  }

  // ---------------------------------------------------------------- the trace-level key

  lemma {:induction false} RunAppend(cfg: Config, key: Key, s: State, a: seq<Action>, b: seq<Action>)
    ensures Run(cfg, key, s, a + b) == Run(cfg, key, Run(cfg, key, s, a), b)
    decreases |a|
  {
    if a == [] {
      assert a + b == b;
    } else {
      assert (a + b)[1..] == a[1..] + b;
      RunAppend(cfg, key, Step(cfg, key, s, a[0]), a[1..], b);
    }
  }

  lemma RunFour(cfg: Config, key: Key, s: State, a: Action, b: Action, c: Action, d: Action)
    ensures Run(cfg, key, s, [a, b, c, d])
         == Step(cfg, key, Step(cfg, key, Step(cfg, key, Step(cfg, key, s, a), b), c), d)
  {
    assert [a, b, c, d] == [a] + ([b] + ([c] + [d]));
    RunAppend(cfg, key, s, [a], [b] + ([c] + [d]));
    RunAppend(cfg, key, Step(cfg, key, s, a), [b], [c] + [d]);
    RunAppend(cfg, key, Step(cfg, key, Step(cfg, key, s, a), b), [c], [d]);
  }

  function GenesisBinding(cfg: Config, tx: int, tenant: string, f: Fields, position: int): Binding {
    var h := ComputeChainHash(cfg, None, tenant, f);
    Binding(tx, tenant, position, f.(previous := None), h.current, h.root)
  }

  lemma BothSignGenesis(cfg: Config, tenant: string, f: Fields, g: Fields)
    ensures Run(cfg, PerTrace, EMPTY, [ReadTip(1, tenant, f), ReadTip(2, tenant, g), TakePosition(1), TakePosition(2)])
         == State([], 3, map[1 := Waiting(GenesisBinding(cfg, 1, tenant, f, 1)),
                             2 := Waiting(GenesisBinding(cfg, 2, tenant, g, 2))])
  {
    RunFour(cfg, PerTrace, EMPTY, ReadTip(1, tenant, f), ReadTip(2, tenant, g), TakePosition(1), TakePosition(2));
    assert Ledger([], tenant) == [];
    var b, c := GenesisBinding(cfg, 1, tenant, f, 0), GenesisBinding(cfg, 2, tenant, g, 0);
    var s1 := Step(cfg, PerTrace, EMPTY, ReadTip(1, tenant, f));
    assert s1 == State([], 1, map[1 := Signed(b)]);
    var s2 := Step(cfg, PerTrace, s1, ReadTip(2, tenant, g));
    assert s2 == State([], 1, map[1 := Signed(b), 2 := Signed(c)]);
  }

  lemma BothCommit(cfg: Config, b: Binding, c: Binding)
    requires b.fields.traceId != c.fields.traceId
    ensures var waiting := State([], 3, map[1 := Waiting(b), 2 := Waiting(c)]);
            Run(cfg, PerTrace, waiting, [Place(1), Place(2), Commit(1), Commit(2)]).table == [b, c]
  {
    var s := State([], 3, map[1 := Waiting(b), 2 := Waiting(c)]);
    RunFour(cfg, PerTrace, s, Place(1), Place(2), Commit(1), Commit(2));
    var s1 := Step(cfg, PerTrace, s, Place(1));
    assert s1 == State([], 3, map[1 := Placed(b), 2 := Waiting(c)]);
    var s2 := Step(cfg, PerTrace, s1, Place(2));
    assert s2 == State([], 3, map[1 := Placed(b), 2 := Placed(c)]);
    var s3 := Step(cfg, PerTrace, s2, Commit(1));
    assert s3 == State([b], 3, map[2 := Placed(c)]);
  }

  /** Two first actions of a tenant, on different traces, may both become genesis rows. */
  lemma TwoGenesisRows(cfg: Config, tenant: string, f: Fields, g: Fields) returns (actions: seq<Action>)
    requires f.traceId != g.traceId
    ensures !Accepted(cfg, tenant, Ledger(Run(cfg, PerTrace, EMPTY, actions).table, tenant))
  {
    var sign := [ReadTip(1, tenant, f), ReadTip(2, tenant, g), TakePosition(1), TakePosition(2)];
    var place := [Place(1), Place(2), Commit(1), Commit(2)];
    actions := sign + place;
    var b, c := GenesisBinding(cfg, 1, tenant, f, 1), GenesisBinding(cfg, 2, tenant, g, 2);
    RunAppend(cfg, PerTrace, EMPTY, sign, place);
    BothSignGenesis(cfg, tenant, f, g);
    BothCommit(cfg, b, c);
    TwoRowsRejected(cfg, tenant, b, c);
  }

  lemma TwoRowsRejected(cfg: Config, tenant: string, a: Binding, b: Binding)
    requires a.tenant == tenant == b.tenant && a.fields.previous.None? && b.fields.previous.None?
    requires a.position < b.position
    ensures !Accepted(cfg, tenant, Ledger([a, b], tenant))
  {
    var keep := (r: Binding) => r.tenant == tenant;
    assert [a, b] == [a] + [b];
    FilterAppend([a], [b], keep);
    assert Rows([a, b], tenant) == [a, b];
    Ordering.SortKeepsSorted(PositionLeq(), [a, b]);
    assert !RowOk(cfg, tenant, [a, b], 1);
  }

  /**
   Every interleaving of appends leaves every tenant's ledger acceptable to the verifier
   exactly when the unique index is per tenant; the per-trace index does not suffice.
   */
  lemma AppendsAlwaysAccepted(cfg: Config, key: Key)
    ensures AlwaysAccepted(cfg, key) <==> key == PerTenant
  {
    if key == PerTenant {
      forall actions, tenant ensures Accepted(cfg, tenant, Ledger(Run(cfg, key, EMPTY, actions).table, tenant)) {
        RunKeeps(cfg, EMPTY, actions);
        LedgerIsRows(cfg, Run(cfg, key, EMPTY, actions).table, tenant);
      }
    } else {
      var f := Fields(None, "", "a", "", "", JsonText.Null, JsonText.Null, "");
      var actions := TwoGenesisRows(cfg, "t", f, f.(traceId := "b"));
    }
  }

  // ---------------------------------------------------------------- rows say what was asked

  predicate Asks(a: Action, b: Binding) {
    && a.ReadTip? && a.tx == b.id && a.tenant == b.tenant
    && b.fields == a.payload.(previous := b.fields.previous)
  }

  ghost predicate Asked(actions: seq<Action>, b: Binding) {
    exists i :: 0 <= i < |actions| && Asks(actions[i], b)
  }

  ghost predicate AllAsked(s: State, actions: seq<Action>) {
    && (forall r :: r in s.table ==> Asked(actions, r))
    && (forall tx :: tx in s.open ==> Asked(actions, s.open[tx].b))
  }

  lemma AskedStays(seen: seq<Action>, a: Action, b: Binding)
    requires Asked(seen, b)
    ensures Asked(seen + [a], b)
  {
    var i :| 0 <= i < |seen| && Asks(seen[i], b);
    assert (seen + [a])[i] == seen[i];
  }

  lemma StepAsked(cfg: Config, key: Key, s: State, seen: seq<Action>, a: Action)
    requires AllAsked(s, seen)
    ensures AllAsked(Step(cfg, key, s, a), seen + [a])
  {
    var s' := Step(cfg, key, s, a);
    forall r | Asked(seen, r) ensures Asked(seen + [a], r) {
      AskedStays(seen, a, r);
    }
    forall tx | tx in s'.open ensures Asked(seen + [a], s'.open[tx].b) {
      var b := s'.open[tx].b;
      if a.ReadTip? && tx == a.tx && tx !in s.open {
        assert Asks((seen + [a])[|seen|], b);
      } else {
        assert tx in s.open && b == s.open[tx].b.(position := b.position);
        var i :| 0 <= i < |seen| && Asks(seen[i], s.open[tx].b);
        assert Asks((seen + [a])[i], b);
      }
    }
  }

  /** Over every run a row holds the fields, link apart, that its transaction was asked to record. */
  lemma {:induction false} RowsWereAsked(cfg: Config, key: Key, s: State, seen: seq<Action>, actions: seq<Action>)
    requires AllAsked(s, seen)
    ensures AllAsked(Run(cfg, key, s, actions), seen + actions)
    decreases |actions|
  {
    if actions == [] {
      assert seen + actions == seen;
    } else {
      StepAsked(cfg, key, s, seen, actions[0]);
      RowsWereAsked(cfg, key, Step(cfg, key, s, actions[0]), seen + [actions[0]], actions[1..]);
      assert seen + [actions[0]] + actions[1..] == seen + actions;
    }
  }
}
