/**
 The scanner for mock data: a depth-first walk of a JSON value that stops below depth 12,
 at array position 20, and at the first offending string, key or uniform array.
 */
module MockScanner {
  import opened Common
  import opened JsonText

  const STRING_PATTERNS: seq<string> := [
    "mock_", "mock-", "_mock", "-mock", "synthetic", "demo_", "demo-", "_demo", "-demo", "seeded_",
    "test_data", "fake_", "_fake", "placeholder", "hardcoded", "dummy_", "sample_data", "lorem ipsum", "example.com"]

  const KEY_PATTERNS: seq<string> := [
    "is_mock", "is_synthetic", "is_demo", "is_seeded", "synthetic", "_synthetic",
    "mock_source", "demo_source", "_seeded"]

  const MAX_DEPTH := 12
  const MAX_POSITIONS := 20

  predicate Includes(s: string, part: string) {
    exists k :: 0 <= k <= |s| && part <= s[k..]
  }

  predicate IncludesAny(s: string, parts: seq<string>) {
    exists p :: p in parts && Includes(s, p)
  }

  predicate UniformNumbers(items: seq<Json>) {
    |items| > 3 && items[0].Num? && forall k :: 0 <= k < |items| ==> items[k] == items[0]
  }

  predicate ValueOffends(v: Json) {
    match v
    case Str(s) => IncludesAny(Lower(s), STRING_PATTERNS)
    case Arr(items) => UniformNumbers(items)
    case _ => false
  }

  predicate KeyOffends(key: string) {
    IncludesAny(Lower(key), KEY_PATTERNS)
  }

  /** Whether a hit is a member's key or a value. */
  datatype Kind = AtKey | AtValue

  /** Where it is: the positions of items and members on the way down. */
  datatype Hit = Hit(path: seq<nat>, kind: Kind)

  function Under(i: nat, found: Option<Hit>): Option<Hit> {
    match found case None => None case Some(h) => Some(Hit([i] + h.path, h.kind))
  }

  function ScanPayload(v: Json, depth: nat): Option<Hit>
    decreases v, 1, 0
  {
    if depth > MAX_DEPTH then None
    else if ValueOffends(v) then Some(Hit([], AtValue))
    else
      match v
      case Arr(items) => ScanItems(items, 0, depth)
      case Obj(members) => ScanMembers(members, 0, depth)
      case _ => None
  }

  function ScanItems(items: seq<Json>, i: nat, depth: nat): Option<Hit>
    requires i <= |items|
    decreases items, 0, |items| - i
  {
    if i == |items| || i >= MAX_POSITIONS then None
    else
      var found := Under(i, ScanPayload(items[i], depth + 1));
      if found.Some? then found else ScanItems(items, i + 1, depth)
  }

  function ScanMembers(members: seq<Member>, i: nat, depth: nat): Option<Hit>
    requires i <= |members|
    decreases members, 0, |members| - i
  {
    if i == |members| then None
    else if KeyOffends(members[i].key) then Some(Hit([i], AtKey))
    else
      var found := Under(i, ScanPayload(members[i].value, depth + 1));
      if found.Some? then found else ScanMembers(members, i + 1, depth)
  }

  // ---------------------------------------------------------------- the places that offend

  /** The value a path leads to, through array positions below 20. */
  function At(v: Json, path: seq<nat>): Option<Json>
    decreases |path|
  {
    if path == [] then Some(v)
    else
      match v
      case Arr(items) => if path[0] < |items| && path[0] < 20 then At(items[path[0]], path[1..]) else None
      case Obj(members) => if path[0] < |members| then At(members[path[0]].value, path[1..]) else None
      case _ => None
  }

  /** An offending value at depth 12 at most, or an offending key of an object there. */
  predicate Offends(v: Json, depth: nat, h: Hit) {
    match h.kind
    case AtValue => |h.path| + depth <= 12 && At(v, h.path).Some? && ValueOffends(At(v, h.path).value)
    case AtKey =>
      && h.path != [] && |h.path| - 1 + depth <= 12
      && var parent := At(v, h.path[..|h.path| - 1]);
         parent.Some? && parent.value.Obj? && Last(h.path) < |parent.value.members|
         && KeyOffends(parent.value.members[Last(h.path)].key)
  }

  predicate PathBefore(p: seq<nat>, q: seq<nat>) {
    q != [] && (p == [] || p[0] < q[0] || (p[0] == q[0] && PathBefore(p[1..], q[1..])))
  }

  /** Depth-first order: a place precedes what lies below it, and a key precedes its value. */
  predicate Before(h: Hit, g: Hit) {
    PathBefore(h.path, g.path) || (h.path == g.path && h.kind.AtKey? && g.kind.AtValue?)
  }

  /** The first of the places from child `from` on that offend, or that there is none. */
  ghost predicate IsFirst(v: Json, depth: nat, from: nat, r: Option<Hit>) {
    match r
    case None => forall g :: Offends(v, depth, g) ==> g.path == [] || g.path[0] < from
    case Some(h) =>
      && Offends(v, depth, h) && h.path != [] && h.path[0] >= from
      && forall g :: Offends(v, depth, g) ==> g == h || g.path == [] || g.path[0] < from || Before(h, g)
  }

  /** What the scan of one value must return. */
  ghost predicate IsFirstOf(v: Json, depth: nat, r: Option<Hit>) {
    match r
    case None => forall g :: !Offends(v, depth, g)
    case Some(h) => Offends(v, depth, h) && forall g :: Offends(v, depth, g) ==> g == h || Before(h, g)
  }

  // ---------------------------------------------------------------- proofs

  function Child(v: Json, i: nat): Option<Json> {
    match v
    case Arr(items) => if i < |items| && i < MAX_POSITIONS then Some(items[i]) else None
    case Obj(members) => if i < |members| then Some(members[i].value) else None
    case _ => None
  }

  predicate ChildKeyOffends(v: Json, i: nat) {
    v.Obj? && i < |v.members| && KeyOffends(v.members[i].key)
  }

  lemma AtChild(v: Json, i: nat, rest: seq<nat>)
    ensures At(v, [i] + rest) == match Child(v, i) case None => None case Some(c) => At(c, rest)
  {
    assert ([i] + rest)[1..] == rest;
  }

  /** A place below a value is a place of one of its children, or the child's own key. */
  lemma OffendsBelow(v: Json, depth: nat, i: nat, rest: seq<nat>, kind: Kind)
    ensures Offends(v, depth, Hit([i] + rest, kind)) <==>
      || (depth <= MAX_DEPTH && kind.AtKey? && rest == [] && ChildKeyOffends(v, i))
      || (Child(v, i).Some? && Offends(Child(v, i).value, depth + 1, Hit(rest, kind)))
  {
    var path := [i] + rest;
    match kind
    case AtValue => AtChild(v, i, rest);
    case AtKey =>
      if rest == [] {
        assert path[..|path| - 1] == [];
      } else {
        assert path[..|path| - 1] == [i] + rest[..|rest| - 1];
        AtChild(v, i, rest[..|rest| - 1]);
      }
  }

  lemma SplitHit(g: Hit)
    requires g.path != []
    ensures g == Hit([g.path[0]] + g.path[1..], g.kind)
  {
  }

  /** From the child at `i` and the children after it to the children from `i` on. */
  lemma FromChild(v: Json, depth: nat, i: nat, c: Option<Hit>, r: Option<Hit>)
    requires depth <= MAX_DEPTH && Child(v, i).Some? && IsFirstOf(Child(v, i).value, depth + 1, c)
    requires !ChildKeyOffends(v, i) && IsFirst(v, depth, i + 1, r)
    ensures IsFirst(v, depth, i, if c.Some? then Under(i, c) else r)
  {
    forall g | Offends(v, depth, g) && g.path != [] && g.path[0] == i
      ensures Offends(Child(v, i).value, depth + 1, Hit(g.path[1..], g.kind))
      ensures c.Some?
      ensures g == Under(i, c).value || Before(Under(i, c).value, g)
    {
      SplitHit(g);
      OffendsBelow(v, depth, i, g.path[1..], g.kind);
    }
    if c.Some? {
      OffendsBelow(v, depth, i, c.value.path, c.value.kind);
    }
  }

  lemma FromKey(v: Json, depth: nat, i: nat)
    requires depth <= MAX_DEPTH && ChildKeyOffends(v, i)
    ensures IsFirst(v, depth, i, Some(Hit([i], AtKey)))
  {
    assert [i] + [] == [i];
    OffendsBelow(v, depth, i, [], AtKey);
    forall g | Offends(v, depth, g) && g.path != [] && g.path[0] == i
      ensures g == Hit([i], AtKey) || Before(Hit([i], AtKey), g)
    {
      assert [i][1..] == [];
      if g.path[1..] == [] {
        assert g.path == [i];
      } else {
        assert PathBefore([i], g.path);
      }
    }
  }

  lemma {:induction false} ItemsFirst(items: seq<Json>, i: nat, depth: nat)
    requires i <= |items| && depth <= MAX_DEPTH
    ensures IsFirst(Arr(items), depth, i, ScanItems(items, i, depth))
    decreases items, 0, |items| - i
  {
    if i == |items| || i >= MAX_POSITIONS {
      forall g | Offends(Arr(items), depth, g) && g.path != [] ensures g.path[0] < i {
        SplitHit(g);
        OffendsBelow(Arr(items), depth, g.path[0], g.path[1..], g.kind);
      }
    } else {
      ScanFirst(items[i], depth + 1);
      ItemsFirst(items, i + 1, depth);
      FromChild(Arr(items), depth, i, ScanPayload(items[i], depth + 1), ScanItems(items, i + 1, depth));
    }
  }

  lemma {:induction false} MembersFirst(members: seq<Member>, i: nat, depth: nat)
    requires i <= |members| && depth <= MAX_DEPTH
    ensures IsFirst(Obj(members), depth, i, ScanMembers(members, i, depth))
    decreases members, 0, |members| - i
  {
    if i == |members| {
      forall g | Offends(Obj(members), depth, g) && g.path != [] ensures g.path[0] < i {
        SplitHit(g);
        OffendsBelow(Obj(members), depth, g.path[0], g.path[1..], g.kind);
      }
    } else if KeyOffends(members[i].key) {
      FromKey(Obj(members), depth, i);
    } else {
      ScanFirst(members[i].value, depth + 1);
      MembersFirst(members, i + 1, depth);
      FromChild(Obj(members), depth, i, ScanPayload(members[i].value, depth + 1), ScanMembers(members, i + 1, depth));
    }
  }

  /**
   The scan returns the first offending place in depth-first order, and nothing exactly when
   no place offends within the limits.
   */
  lemma {:induction false} ScanFirst(v: Json, depth: nat)
    ensures IsFirstOf(v, depth, ScanPayload(v, depth))
    decreases v, 1, 0
  {
    if depth <= MAX_DEPTH {
      if ValueOffends(v) {
        assert Offends(v, depth, Hit([], AtValue));
      } else if v.Arr? {
        ItemsFirst(v.items, 0, depth);
      } else if v.Obj? {
        MembersFirst(v.members, 0, depth);
      } else {
        forall g | Offends(v, depth, g) ensures false {
        }
      }
    }
  }

  /** In particular the scan of a payload finds something exactly when something offends. */
  lemma FoundExact(v: Json)
    ensures ScanPayload(v, 0).Some? <==> exists h :: Offends(v, 0, h)
  {
    ScanFirst(v, 0);
  }
}
