/**
 The `|`-joined text that an audit binding signs, and when that text determines the
 binding's fields.
 */
module AuditBlock {
  import opened Common
  import opened Joining
  import opened JsonText
  import opened CanonicalJson
  import opened Digests

  const GENESIS := "GENESIS_BLOCK_ROOT_INVARIANT"
  const HASH_ALGORITHM_VERSION := "SHA256_JCS_V1"

  /** The hashed fields of a binding. */
  datatype Fields = Fields(
    previous: Option<string>, operatorHash: string, traceId: string, spanId: string,
    actionType: string, auth: Json, payload: Json, signedAt: string)

  /** JavaScript's `previous || GENESIS`: a missing or empty hash reads as the genesis literal. */
  function PreviousText(previous: Option<string>): string {
    if previous.Some? && previous.value != "" then previous.value else GENESIS
  }

  function Block(f: Fields): string {
    Join([PreviousText(f.previous), f.operatorHash, f.traceId, f.spanId, f.actionType,
          Canonical(f.auth), Canonical(f.payload), f.signedAt], '|')
  }

  function RootBlock(tenant: string, traceId: string, signature: string, secret: string): string {
    Join([HASH_ALGORITHM_VERSION, tenant, traceId, signature, secret], '|')
  }

  /** A link is absent or a digest, and a time is printed without `|`, as `toISOString` does. */
  predicate Readable(f: Fields) {
    (f.previous.Some? ==> IsDigest(f.previous.value)) && NoPipe(f.signedAt)
  }

  predicate FreeTextClean(f: Fields) {
    NoPipe(f.operatorHash) && NoPipe(f.traceId) && NoPipe(f.spanId) && NoPipe(f.actionType)
  }

  /** Equal fields, JSON values up to the order of object members. */
  ghost predicate SameContent(f: Fields, g: Fields) {
    && f.previous == g.previous && f.operatorHash == g.operatorHash && f.traceId == g.traceId
    && f.spanId == g.spanId && f.actionType == g.actionType && f.signedAt == g.signedAt
    && Equivalent(f.auth, g.auth) && Equivalent(f.payload, g.payload)
  }

  ghost predicate ProperFields(f: Fields) {
    Proper(f.auth) && Proper(f.payload)
  }

  // ---------------------------------------------------------------- splitting texts

  lemma SplitAtFirstPipe(a: string, x: string, b: string, y: string)
    requires a + "|" + x == b + "|" + y && NoPipe(a) && NoPipe(b)
    ensures a == b && x == y
  {
    var w := a + "|" + x;
    assert w[|a|] == '|' && w[|b|] == '|';
    assert forall i :: 0 <= i < |a| ==> w[i] == a[i];
    assert forall i :: 0 <= i < |b| ==> w[i] == b[i];
    assert |a| == |b|;
    assert a == w[..|a|] && b == w[..|b|] && x == w[|a| + 1..] && y == w[|b| + 1..];
  }

  lemma SameTail(x: string, a: string, y: string, b: string)
    requires x + "|" + a == y + "|" + b && |a| == |b|
    ensures a == b && x == y
  {
    var w := x + "|" + a;
    assert a == w[|w| - |a|..] && b == w[|w| - |b|..];
    assert x == w[..|w| - |a| - 1] && y == w[..|w| - |b| - 1];
  }

  /** The longer of two tails cut off at a `|` contains that `|`. */
  lemma LongerTail(x: string, a: string, y: string, b: string) returns (u: string)
    requires x + "|" + a == y + "|" + b && |b| < |a|
    ensures a == u + "|" + b && '|' in a
  {
    var w := x + "|" + a;
    assert a == w[|w| - |a|..] && b == w[|w| - |b|..];
    u := a[..|a| - |b| - 1];
    assert w[|w| - |b| - 1] == '|';
    assert a[|a| - |b| - 1] == w[|w| - |b| - 1];
    assert a == u + [a[|a| - |b| - 1]] + a[|a| - |b|..];
    assert a[|a| - |b|..] == b;
  }

  lemma SplitAtLastPipe(x: string, a: string, y: string, b: string)
    requires x + "|" + a == y + "|" + b && NoPipe(a) && NoPipe(b)
    ensures a == b && x == y
  {
    if |b| < |a| {
      var _ := LongerTail(x, a, y, b);
      assert false;
    } else if |a| < |b| {
      var _ := LongerTail(y, b, x, a);
      assert false;
    } else {
      SameTail(x, a, y, b);
    }
  }

  /** A JSON text can be cut off from the right although it may contain `|`. */
  lemma SplitBeforeJson(x: string, j: Json, y: string, k: Json)
    requires x + "|" + Text(j) == y + "|" + Text(k)
    ensures j == k && x == y
  {
    if |Text(k)| < |Text(j)| {
      var u := LongerTail(x, Text(j), y, Text(k));
      NoTextAfterPipe(j, k, u);
    } else if |Text(j)| < |Text(k)| {
      var u := LongerTail(y, Text(k), x, Text(j));
      NoTextAfterPipe(k, j, u);
    } else {
      SameTail(x, Text(j), y, Text(k));
      assert Text(j) + "" == Text(k) + "";
      TextIsPrefixCode(j, k, "", "");
    }
  }

  function Pipes(s: string): nat {
    if s == "" then 0 else (if s[0] == '|' then 1 else 0) + Pipes(s[1..])
  }

  lemma {:induction false} PipesAppend(a: string, b: string)
    ensures Pipes(a + b) == Pipes(a) + Pipes(b)
  {
    if a == "" {
      assert a + b == b;
    } else {
      assert (a + b)[1..] == a[1..] + b;
      PipesAppend(a[1..], b);
    }
  }

  lemma {:induction false} PipesZero(s: string)
    ensures Pipes(s) == 0 <==> NoPipe(s)
  {
    if s != "" {
      PipesZero(s[1..]);
      assert s == [s[0]] + s[1..];
    }
  }

  // ---------------------------------------------------------------- the block

  function FreeText(f: Fields): string {
    f.operatorHash + "|" + f.traceId + "|" + f.spanId + "|" + f.actionType
  }

  lemma BlockShape(f: Fields)
    ensures Block(f) == ((PreviousText(f.previous) + "|" + FreeText(f)) + "|" + Canonical(f.auth))
                        + "|" + Canonical(f.payload) + "|" + f.signedAt
  {
    var p, o, t, s, a, c, d, e := PreviousText(f.previous), f.operatorHash, f.traceId, f.spanId,
                                  f.actionType, Canonical(f.auth), Canonical(f.payload), f.signedAt;
    JoinCons(p, [o, t, s, a, c, d, e]);
    JoinCons(o, [t, s, a, c, d, e]);
    JoinCons(t, [s, a, c, d, e]);
    JoinCons(s, [a, c, d, e]);
    JoinCons(a, [c, d, e]);
    JoinCons(c, [d, e]);
    JoinCons(d, [e]);
    EightParts(p, o, t, s, a, c, d, e);
  }

  lemma JoinCons(p: string, rest: seq<string>)
    requires rest != []
    ensures Join([p] + rest, '|') == p + ("|" + Join(rest, '|'))
  {
    assert ([p] + rest)[1..] == rest;
    assert ['|'] == "|";
  }

  lemma EightParts(p: string, o: string, t: string, s: string, a: string, c: string, d: string, e: string)
    ensures p + ("|" + (o + ("|" + (t + ("|" + (s + ("|" + (a + ("|" + (c + ("|" + (d + ("|" + e)))))))))))))
         == ((p + "|" + (o + "|" + t + "|" + s + "|" + a)) + "|" + c) + "|" + d + "|" + e
  {
  }

  /** Reading a block from its ends: everything but the four free texts is always determined. */
  lemma BlockEnds(f: Fields, g: Fields)
    requires Readable(f) && Readable(g) && Block(f) == Block(g)
    ensures f.previous == g.previous && FreeText(f) == FreeText(g) && f.signedAt == g.signedAt
    ensures Equivalent(f.auth, g.auth) && Equivalent(f.payload, g.payload)
  {
    BlockShape(f);
    BlockShape(g);
    var hf, hg := PreviousText(f.previous) + "|" + FreeText(f), PreviousText(g.previous) + "|" + FreeText(g);
    var af, ag := hf + "|" + Canonical(f.auth), hg + "|" + Canonical(g.auth);
    SplitAtLastPipe(af + "|" + Canonical(f.payload), f.signedAt, ag + "|" + Canonical(g.payload), g.signedAt);
    SplitBeforeJson(af, Normal(f.payload), ag, Normal(g.payload));
    SplitBeforeJson(hf, Normal(f.auth), hg, Normal(g.auth));
    NormalTellsContent(f.payload, g.payload);
    NormalTellsContent(f.auth, g.auth);
    SplitAtFirstPipe(PreviousText(f.previous), FreeText(f), PreviousText(g.previous), FreeText(g));
  }

  lemma FreeTextPipes(f: Fields)
    ensures Pipes(FreeText(f)) == 3 + Pipes(f.operatorHash) + Pipes(f.traceId) + Pipes(f.spanId) + Pipes(f.actionType)
  {
    var o, t, s, a := f.operatorHash, f.traceId, f.spanId, f.actionType;
    PipesAppend(o, "|");
    PipesAppend(o + "|", t);
    PipesAppend(o + "|" + t, "|");
    PipesAppend(o + "|" + t + "|", s);
    PipesAppend(o + "|" + t + "|" + s, "|");
    PipesAppend(o + "|" + t + "|" + s + "|", a);
  }

  lemma CleanFreeText(f: Fields, g: Fields)
    requires FreeText(f) == FreeText(g) && FreeTextClean(f)
    ensures f.operatorHash == g.operatorHash && f.traceId == g.traceId
    ensures f.spanId == g.spanId && f.actionType == g.actionType
  {
    FreeTextPipes(f);
    FreeTextPipes(g);
    PipesZero(f.operatorHash);
    PipesZero(f.traceId);
    PipesZero(f.spanId);
    PipesZero(f.actionType);
    PipesZero(g.operatorHash);
    PipesZero(g.traceId);
    PipesZero(g.spanId);
    PipesZero(g.actionType);
    SplitAtLastPipe(f.operatorHash + "|" + f.traceId + "|" + f.spanId, f.actionType,
                    g.operatorHash + "|" + g.traceId + "|" + g.spanId, g.actionType);
    SplitAtLastPipe(f.operatorHash + "|" + f.traceId, f.spanId, g.operatorHash + "|" + g.traceId, g.spanId);
    SplitAtLastPipe(f.operatorHash, f.traceId, g.operatorHash, g.traceId);
  }

  lemma CutAtPipe(s: string) returns (u: string, v: string)
    requires !NoPipe(s)
    ensures s == u + "|" + v
  {
    var i :| 0 <= i < |s| && s[i] == '|';
    u, v := s[..i], s[i + 1..];
    assert s == s[..i] + [s[i]] + s[i + 1..];
  }

  lemma Regrouped(f: Fields, g: Fields)
    requires FreeText(f) == FreeText(g)
    requires g == f.(operatorHash := g.operatorHash, traceId := g.traceId,
                     spanId := g.spanId, actionType := g.actionType)
    ensures Block(f) == Block(g)
  {
    BlockShape(f);
    BlockShape(g);
  }

  /** A free text with a `|` can be moved into its neighbour without changing the block. */
  lemma AmbiguousSibling(f: Fields) returns (g: Fields)
    requires Readable(f) && !FreeTextClean(f)
    ensures Readable(g) && Block(f) == Block(g) && !SameContent(f, g)
  {
    if !NoPipe(f.operatorHash) {
      var u, v := CutAtPipe(f.operatorHash);
      g := f.(operatorHash := u, traceId := v + "|" + f.traceId);
      assert |g.operatorHash| < |f.operatorHash|;
      assert FreeText(f) == FreeText(g);
    } else if !NoPipe(f.traceId) {
      var u, v := CutAtPipe(f.traceId);
      g := f.(operatorHash := f.operatorHash + "|" + u, traceId := v);
      assert |g.traceId| < |f.traceId|;
      assert FreeText(f) == FreeText(g);
    } else if !NoPipe(f.spanId) {
      var u, v := CutAtPipe(f.spanId);
      g := f.(traceId := f.traceId + "|" + u, spanId := v);
      assert |g.spanId| < |f.spanId|;
      assert FreeText(f) == FreeText(g);
    } else {
      var u, v := CutAtPipe(f.actionType);
      g := f.(spanId := f.spanId + "|" + u, actionType := v);
      assert |g.actionType| < |f.actionType|;
      assert FreeText(f) == FreeText(g);
    }
    Regrouped(f, g);
  }

  /**
   Equal content gives equal blocks, and a block determines its content exactly when operator,
   trace, span and action have no `|`. The JSON texts may contain `|` freely.
   */
  lemma BlockDeterminesFields(f: Fields)
    requires Readable(f)
    ensures ProperFields(f) ==> forall g :: ProperFields(g) && SameContent(f, g) ==> Block(g) == Block(f)
    ensures FreeTextClean(f) <==> forall g :: Readable(g) && Block(g) == Block(f) ==> SameContent(f, g)
  {
    forall g | ProperFields(f) && ProperFields(g) && SameContent(f, g) ensures Block(g) == Block(f) {
      CanonicalIgnoresMemberOrder(f.auth, g.auth);
      CanonicalIgnoresMemberOrder(f.payload, g.payload);
    }
    if FreeTextClean(f) {
      forall g | Readable(g) && Block(g) == Block(f) ensures SameContent(f, g) {
        BlockEnds(f, g);
        CleanFreeText(f, g);
      }
    } else {
      var g := AmbiguousSibling(f);
      assert Readable(g) && Block(g) == Block(f) && !SameContent(f, g);
    }
  }

  // ---------------------------------------------------------------- reading texts back

  /** A reader of blocks: cut at the first five separators, then read two JSON values and a time. */
  function ReadBlock(w: string): Option<Fields> {
    var parts := CutFirst(w, '|', 5);
    if |parts| != 6 then None
    else
      match ReadJson(parts[5])
      case None => None
      case Some((auth, afterAuth)) =>
        if afterAuth == "" || afterAuth[0] != '|' then None
        else
          match ReadJson(afterAuth[1..])
          case None => None
          case Some((payload, afterPayload)) =>
            if afterPayload == "" || afterPayload[0] != '|' then None
            else
              var link := if parts[0] == "GENESIS_BLOCK_ROOT_INVARIANT" then None else Some(parts[0]);
              Some(Fields(link, parts[1], parts[2], parts[3], parts[4], auth, payload, afterPayload[1..]))
  }

  lemma JsonEndReadsBack(auth: Json, payload: Json, time: string)
    ensures var w := Join([Text(auth), Text(payload), time], '|');
            && ReadJson(w) == Some((auth, "|" + Join([Text(payload), time], '|')))
            && ReadJson(Join([Text(payload), time], '|')) == Some((payload, "|" + time))
  {
    JoinCons(Text(auth), [Text(payload), time]);
    JoinCons(Text(payload), [time]);
    TextReadsBack(auth, "|" + Join([Text(payload), time], '|'));
    TextReadsBack(payload, "|" + time);
  }

  lemma BlockCut(f: Fields)
    requires Readable(f) && FreeTextClean(f)
    ensures CutFirst(Block(f), '|', 5) ==
      [PreviousText(f.previous), f.operatorHash, f.traceId, f.spanId, f.actionType,
       Join([Canonical(f.auth), Canonical(f.payload), f.signedAt], '|')]
  {
    var front := [PreviousText(f.previous), f.operatorHash, f.traceId, f.spanId, f.actionType];
    var ends := [Canonical(f.auth), Canonical(f.payload), f.signedAt];
    assert front + ends == [PreviousText(f.previous), f.operatorHash, f.traceId, f.spanId, f.actionType,
                            Canonical(f.auth), Canonical(f.payload), f.signedAt];
    JoinTail(front, ends, '|');
    CutJoin(front + [Join(ends, '|')], '|');
  }

  /**
   What a block says, in its order: link, operator, trace, span and action, then both JSON
   values with their keys in canonical order, then the time.
   */
  lemma BlockReadsBack(f: Fields)
    requires Readable(f) && FreeTextClean(f)
    ensures ReadBlock(Block(f)).Some?
    ensures var g := ReadBlock(Block(f)).value;
            && SameContent(f, g)
            && (ProperFields(f) ==> CanonicalOrder(g.auth) && CanonicalOrder(g.payload))
  {
    BlockCut(f);
    JsonEndReadsBack(Normal(f.auth), Normal(f.payload), f.signedAt);
    NormalKeepsContent(f.auth);
    NormalKeepsContent(f.payload);
    if ProperFields(f) {
      NormalIsOrdered(f.auth);
      NormalIsOrdered(f.payload);
    }
  }

  /** A root text names the version, the tenant, the trace, the first signature and the secret. */
  lemma RootReadsBack(tenant: string, traceId: string, signature: string, secret: string)
    requires NoPipe(tenant) && NoPipe(traceId) && NoPipe(signature)
    ensures CutFirst(RootBlock(tenant, traceId, signature, secret), '|', 4)
         == ["SHA256_JCS_V1", tenant, traceId, signature, secret]
  {
    CutJoin(["SHA256_JCS_V1", tenant, traceId, signature, secret], '|');
  }
}
