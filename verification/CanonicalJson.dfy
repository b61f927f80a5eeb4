/**
 The RFC 8785 canonical form of JSON values (section 3.2): members sorted by UTF-16 code units.
 */
module CanonicalJson {
  import opened Common
  import opened Ordering
  import opened JsonText

  // ---------------------------------------------------------------- canonical form

  function KeyLeq(): (Member, Member) -> bool {
    (m: Member, n: Member) => TextLeq(m.key, n.key)
  }

  /** The value with the members of every object sorted by key. */
  function Normal(j: Json): Json
    decreases j, 1
  {
    match j
    case Arr(items) => Arr(NormalItems(items))
    case Obj(members) => Obj(Sort(KeyLeq(), NormalMembers(members)))
    case _ => j
  }

  function NormalItems(items: seq<Json>): seq<Json>
    decreases items, 0
  {
    if items == [] then [] else [Normal(items[0])] + NormalItems(items[1..])
  }

  function NormalMembers(members: seq<Member>): seq<Member>
    decreases members, 0
  {
    if members == [] then []
    else [Member(members[0].key, Normal(members[0].value))] + NormalMembers(members[1..])
  }

  function Canonical(j: Json): string {
    Text(Normal(j))
  }

  // ---------------------------------------------------------------- the content of a value

  /** No object repeats a key, as in every JavaScript object and every JSONB column. */
  ghost predicate Proper(j: Json) {
    match j
    case Arr(items) => forall i :: 0 <= i < |items| ==> Proper(items[i])
    case Obj(members) =>
      && DistinctKeys(members)
      && forall i :: 0 <= i < |members| ==> Proper(members[i].value)
    case _ => true
  }

  ghost predicate DistinctKeys(members: seq<Member>) {
    forall i, j :: 0 <= i < j < |members| ==> members[i].key != members[j].key
  }

  /**
   The same content: equal scalars, arrays item by item, and objects in which every member of
   either has a partner in the other with its key and a value of the same content.
   */
  ghost predicate Equivalent(a: Json, b: Json)
    decreases a, 0
  {
    match a
    case Arr(items) =>
      b.Arr? && |items| == |b.items| && forall i :: 0 <= i < |items| ==> Equivalent(items[i], b.items[i])
    case Obj(members) =>
      && b.Obj?
      && (forall i {:trigger HasPartner(members[i], b.members)} ::
            0 <= i < |members| ==> HasPartner(members[i], b.members))
      && (forall j {:trigger IsPartner(members, b.members[j])} ::
            0 <= j < |b.members| ==> IsPartner(members, b.members[j]))
    case _ => a == b
  }

  ghost predicate HasPartner(m: Member, ns: seq<Member>)
    decreases m, 1
  {
    exists j :: 0 <= j < |ns| && Alike(m, ns[j])
  }

  ghost predicate IsPartner(ms: seq<Member>, n: Member)
    decreases ms, 0
  {
    exists i :: 0 <= i < |ms| && Alike(ms[i], n)
  }

  ghost predicate Alike(m: Member, n: Member)
    decreases m, 0
  {
    m.key == n.key && Equivalent(m.value, n.value)
  }

  lemma {:induction false} NormalItemsAt(items: seq<Json>)
    ensures |NormalItems(items)| == |items|
    ensures forall i :: 0 <= i < |items| ==> NormalItems(items)[i] == Normal(items[i])
  {
    if items != [] {
      NormalItemsAt(items[1..]);
    }
  }

  lemma {:induction false} NormalMembersAt(members: seq<Member>)
    ensures |NormalMembers(members)| == |members|
    ensures forall i :: 0 <= i < |members| ==>
              NormalMembers(members)[i] == Member(members[i].key, Normal(members[i].value))
  {
    if members != [] {
      NormalMembersAt(members[1..]);
    }
  }

  lemma KeyLeqIsPreorder()
    ensures TotalPreorder(KeyLeq())
  {
    var leq := KeyLeq();
    forall m, n ensures leq(m, n) || leq(n, m) {
      TextLeqTotal(m.key, n.key);
    }
    forall m, n, k | leq(m, n) && leq(n, k) ensures leq(m, k) {
      TextLeqTransitive(m.key, n.key, k.key);
    }
  }

  lemma SortedAlikeShare(ms: seq<Member>, ns: seq<Member>)
    requires Sort(KeyLeq(), ms) == Sort(KeyLeq(), ns)
    ensures forall m :: m in ms <==> m in ns
  {
    KeyLeqIsPreorder();
    SortIsSortedPermutation(KeyLeq(), ms);
    SortIsSortedPermutation(KeyLeq(), ns);
    SameElements(ms, ns);
  }

  /** Values with one normal form have the same content, at every depth. */
  lemma {:induction false} NormalTellsContent(a: Json, b: Json)
    requires Normal(a) == Normal(b)
    ensures Equivalent(a, b)
    decreases a, 1
  {
    match a
    case Arr(xs) => NormalTellsItems(xs, b.items);
    case Obj(ms) => NormalTellsMembers(ms, b.members);
    case _ =>
  }

  lemma {:induction false} NormalTellsItems(xs: seq<Json>, ys: seq<Json>)
    requires NormalItems(xs) == NormalItems(ys)
    ensures Equivalent(Arr(xs), Arr(ys))
    decreases xs, 0
  {
    NormalItemsAt(xs);
    NormalItemsAt(ys);
    forall i | 0 <= i < |xs| ensures Equivalent(xs[i], ys[i]) {
      assert NormalItems(xs)[i] == NormalItems(ys)[i];
      NormalTellsContent(xs[i], ys[i]);
    }
  }

  lemma {:induction false} NormalTellsMembers(ms: seq<Member>, ns: seq<Member>)
    requires Sort(KeyLeq(), NormalMembers(ms)) == Sort(KeyLeq(), NormalMembers(ns))
    ensures Equivalent(Obj(ms), Obj(ns))
    decreases ms, 0
  {
    var ms', ns' := NormalMembers(ms), NormalMembers(ns);
    NormalMembersAt(ms);
    NormalMembersAt(ns);
    SortedAlikeShare(ms', ns');
    forall i | 0 <= i < |ms| ensures HasPartner(ms[i], ns) {
      assert ms'[i] in ns';
      var j :| 0 <= j < |ns| && ns'[j] == ms'[i];
      NormalTellsContent(ms[i].value, ns[j].value);
      assert Alike(ms[i], ns[j]);
    }
    forall j | 0 <= j < |ns| ensures IsPartner(ms, ns[j]) {
      assert ns'[j] in ms';
      var i :| 0 <= i < |ms| && ms'[i] == ns'[j];
      NormalTellsContent(ms[i].value, ns[j].value);
      assert Alike(ms[i], ns[j]);
    }
  }

  lemma DistinctKeysSort(ms: seq<Member>, ns: seq<Member>)
    requires DistinctKeys(ms) && DistinctKeys(ns) && forall m :: m in ms <==> m in ns
    ensures Sort(KeyLeq(), ms) == Sort(KeyLeq(), ns)
  {
    NoRepeats(ms);
    NoRepeats(ns);
    forall m ensures multiset(ms)[m] == multiset(ns)[m] {
      assert m in ms <==> m in ns;
    }
    assert multiset(ms) == multiset(ns);
    KeyLeqIsPreorder();
    forall m, n | m in ms && n in ms && TextLeq(m.key, n.key) && TextLeq(n.key, m.key) ensures m == n {
      TextLeqTotal(m.key, n.key);
    }
    SortIgnoresOrder(KeyLeq(), ms, ns);
  }

  lemma {:induction false} ContentTellsNormal(a: Json, b: Json)
    requires Proper(a) && Proper(b) && Equivalent(a, b)
    ensures Normal(a) == Normal(b)
    decreases a, 1
  {
    match a
    case Arr(xs) =>
      NormalItemsAt(xs);
      NormalItemsAt(b.items);
      forall i | 0 <= i < |xs| ensures Normal(xs[i]) == Normal(b.items[i]) {
        ContentTellsNormal(xs[i], b.items[i]);
      }
    case Obj(ms) => ContentTellsMembers(ms, b.members);
    case _ =>
  }

  lemma {:induction false} ContentTellsMembers(ms: seq<Member>, ns: seq<Member>)
    requires Proper(Obj(ms)) && Proper(Obj(ns)) && Equivalent(Obj(ms), Obj(ns))
    ensures Sort(KeyLeq(), NormalMembers(ms)) == Sort(KeyLeq(), NormalMembers(ns))
    decreases ms, 0
  {
    var ms', ns' := NormalMembers(ms), NormalMembers(ns);
    NormalMembersAt(ms);
    NormalMembersAt(ns);
    forall i, j | 0 <= i < |ms| && 0 <= j < |ns| && Alike(ms[i], ns[j]) ensures ms'[i] == ns'[j] {
      ContentTellsNormal(ms[i].value, ns[j].value);
    }
    forall i | 0 <= i < |ms| ensures ms'[i] in ns' {
      assert HasPartner(ms[i], ns);
      var j :| 0 <= j < |ns| && Alike(ms[i], ns[j]);
      assert ms'[i] == ns'[j];
    }
    forall j | 0 <= j < |ns| ensures ns'[j] in ms' {
      assert IsPartner(ms, ns[j]);
      var i :| 0 <= i < |ms| && Alike(ms[i], ns[j]);
      assert ms'[i] == ns'[j];
    }
    DistinctKeysSort(ms', ns');
  }

  /** Reordering the members of objects, at any depth, does not change the canonical text. */
  lemma CanonicalIgnoresMemberOrder(a: Json, b: Json)
    requires Proper(a) && Proper(b) && Equivalent(a, b)
    ensures Canonical(a) == Canonical(b)
  {
    ContentTellsNormal(a, b);
  }

  /** Two values have the same canonical text exactly when they have the same content. */
  lemma CanonicalIsInjective(a: Json, b: Json)
    ensures Canonical(a) == Canonical(b) ==> Equivalent(a, b)
    ensures Proper(a) && Proper(b) ==> (Canonical(a) == Canonical(b) <==> Equivalent(a, b))
  {
    if Canonical(a) == Canonical(b) {
      assert Text(Normal(a)) + "" == Text(Normal(b)) + "";
      TextIsPrefixCode(Normal(a), Normal(b), "", "");
      NormalTellsContent(a, b);
    } else if Proper(a) && Proper(b) && Equivalent(a, b) {
      CanonicalIgnoresMemberOrder(a, b);
    }
  }

  lemma NormalMembersShare(ms: seq<Member>)
    ensures forall m :: m in Sort(KeyLeq(), NormalMembers(ms)) <==> m in NormalMembers(ms)
  {
    KeyLeqIsPreorder();
    SortIsSortedPermutation(KeyLeq(), NormalMembers(ms));
    SameElements(NormalMembers(ms), Sort(KeyLeq(), NormalMembers(ms)));
  }

  /** The canonical form has the content of the value it was made from. */
  lemma {:induction false} NormalKeepsContent(j: Json)
    ensures Equivalent(j, Normal(j))
    decreases j, 1
  {
    match j
    case Arr(items) =>
      NormalItemsAt(items);
      forall i | 0 <= i < |items| ensures Equivalent(items[i], Normal(items[i])) {
        NormalKeepsContent(items[i]);
      }
    case Obj(members) => NormalKeepsMembers(members);
    case _ =>
  }

  lemma {:induction false} NormalKeepsMembers(ms: seq<Member>)
    ensures Equivalent(Obj(ms), Normal(Obj(ms)))
    decreases ms, 0
  {
    var ms', ns := NormalMembers(ms), Sort(KeyLeq(), NormalMembers(ms));
    NormalMembersAt(ms);
    NormalMembersShare(ms);
    forall i | 0 <= i < |ms| ensures Alike(ms[i], ms'[i]) {
      NormalKeepsContent(ms[i].value);
    }
    forall i | 0 <= i < |ms| ensures HasPartner(ms[i], ns) {
      assert ms'[i] in ns;
      var j :| 0 <= j < |ns| && ns[j] == ms'[i];
      assert Alike(ms[i], ns[j]);
    }
    forall j | 0 <= j < |ns| ensures IsPartner(ms, ns[j]) {
      assert ns[j] in ms';
      var i :| 0 <= i < |ms| && ms'[i] == ns[j];
      assert Alike(ms[i], ns[j]);
    }
  }

  // ---------------------------------------------------------------- the order of members

  ghost predicate KeysIncrease(members: seq<Member>) {
    forall i, j :: 0 <= i < j < |members| ==>
      members[i].key != members[j].key && UnitsLeq(Units(members[i].key), Units(members[j].key))
  }

  /** At every depth, keys strictly increase in the order of their UTF-16 code units. */
  ghost predicate CanonicalOrder(j: Json) {
    match j
    case Arr(items) => forall i :: 0 <= i < |items| ==> CanonicalOrder(items[i])
    case Obj(members) =>
      && KeysIncrease(members)
      && forall i :: 0 <= i < |members| ==> CanonicalOrder(members[i].value)
    case _ => true
  }

  lemma SortedKeysIncrease(ms: seq<Member>)
    requires DistinctKeys(ms)
    ensures KeysIncrease(Sort(KeyLeq(), ms))
  {
    var ns := Sort(KeyLeq(), ms);
    KeyLeqIsPreorder();
    SortIsSortedPermutation(KeyLeq(), ms);
    NoRepeats(ms);
    SameElements(ms, ns);
    assert forall k :: 0 <= k < |ns| ==> ns[k] in ms && multiset(ns)[ns[k]] == 1;
    forall i, j | 0 <= i < j < |ns|
      ensures ns[i].key != ns[j].key && UnitsLeq(Units(ns[i].key), Units(ns[j].key))
    {
      assert KeyLeq()(ns[i], ns[j]);
      TextOrderIsUtf16(ns[i].key, ns[j].key);
      Repeated(ns, i, j);
    }
  }

  lemma Repeated(ns: seq<Member>, i: nat, j: nat)
    requires i < j < |ns|
    ensures ns[i] == ns[j] ==> multiset(ns)[ns[i]] >= 2
  {
    assert ns == ns[..j] + [ns[j]] + ns[j + 1..];
    assert ns[i] in ns[..j];
  }

  /** In the canonical form of a proper value every object lists its keys in that order. */
  lemma {:induction false} NormalIsOrdered(j: Json)
    requires Proper(j)
    ensures CanonicalOrder(Normal(j))
    decreases j, 1
  {
    match j
    case Arr(items) =>
      NormalItemsAt(items);
      forall i | 0 <= i < |items| ensures CanonicalOrder(Normal(items[i])) {
        NormalIsOrdered(items[i]);
      }
    case Obj(members) => NormalMembersOrdered(members);
    case _ =>
  }

  lemma {:induction false} NormalMembersOrdered(ms: seq<Member>)
    requires Proper(Obj(ms))
    ensures CanonicalOrder(Normal(Obj(ms)))
    decreases ms, 0
  {
    var ms', ns := NormalMembers(ms), Sort(KeyLeq(), NormalMembers(ms));
    NormalMembersAt(ms);
    NormalMembersShare(ms);
    SortedKeysIncrease(ms');
    forall k | 0 <= k < |ns| ensures CanonicalOrder(ns[k].value) {
      assert ns[k] in ms';
      var i :| 0 <= i < |ms| && ms'[i] == ns[k];
      NormalIsOrdered(ms[i].value);
    }
  }

  // ---------------------------------------------------------------- reading from the right

  /** Where a reader of JSON text stands; `Bad` once it saw something no JSON text has there. */
  datatype Mode = Outside | Inside | Escaped | Bad

  function ScanChar(m: Mode, c: char): Mode {
    match m
    case Outside => if c == '\"' then Inside else if c == '\\' || c == '|' then Bad else Outside
    case Inside => if c == '\"' then Outside else if c == '\\' then Escaped else Inside
    case Escaped => if c == '|' then Bad else Inside
    case Bad => Bad
  }

  function Scan(m: Mode, s: string): Mode
    decreases |s|
  {
    if s == "" then m else Scan(ScanChar(m, s[0]), s[1..])
  }

  lemma {:induction false} ScanAppend(m: Mode, s: string, t: string)
    ensures Scan(m, s + t) == Scan(Scan(m, s), t)
    decreases |s|
  {
    if s == "" {
      assert s + t == t;
    } else {
      assert (s + t)[1..] == s[1..] + t;
      ScanAppend(ScanChar(m, s[0]), s[1..], t);
    }
  }

  lemma {:induction false} ScanBad(s: string)
    ensures Scan(Bad, s) == Bad
    decreases |s|
  {
    if s != "" {
      ScanBad(s[1..]);
    }
  }

  lemma {:induction false} ScanPlain(m: Mode, s: string)
    requires m == Outside
    requires forall i :: 0 <= i < |s| ==> s[i] !in {'\"', '\\', '|'}
    ensures Scan(m, s) == Outside
    decreases |s|
  {
    if s != "" {
      ScanPlain(m, s[1..]);
    }
  }

  lemma {:induction false} ScanInside(s: string)
    requires forall i :: 0 <= i < |s| ==> s[i] !in {'\"', '\\'}
    ensures Scan(Inside, s) == Inside
    decreases |s|
  {
    if s != "" {
      ScanInside(s[1..]);
    }
  }

  lemma ScanEscape(c: char)
    ensures Scan(Inside, EscapeChar(c)) == Inside
  {
    var e := EscapeChar(c);
    if |e| == 1 {
      ScanInside(e);
    } else {
      assert e[0] == '\\' && e[1] != '|';
      assert |e| == 6 ==> e[4] in HEX && e[5] in HEX;
      ScanInside(e[2..]);
      assert e[1..][1..] == e[2..];
    }
  }

  lemma {:induction false} ScanQuoteRest(s: string)
    ensures Scan(Inside, QuoteRest(s)) == Outside
  {
    if s != "" {
      ScanEscape(s[0]);
      ScanQuoteRest(s[1..]);
      ScanAppend(Inside, EscapeChar(s[0]), QuoteRest(s[1..]));
    }
  }

  lemma ScanQuote(s: string)
    ensures Scan(Outside, Quote(s)) == Outside
  {
    ScanQuoteRest(s);
    assert Quote(s)[1..] == QuoteRest(s);
  }

  /** A JSON text leaves its reader outside every string, and has no `|` outside strings. */
  lemma {:induction false} ScanText(j: Json)
    ensures Scan(Outside, Text(j)) == Outside
    decreases j, 1
  {
    match j
    case Null => ScanPlain(Outside, "null");
    case Bool(_) => ScanPlain(Outside, Text(j));
    case Num(t) =>
      assert forall i :: 0 <= i < |t| ==> IsNumberChar(t[i]);
      ScanPlain(Outside, t);
    case Str(s) => ScanQuote(s);
    case Arr(items) =>
      ScanItems(items, true);
      assert Text(j)[1..] == ItemsText(items, true);
    case Obj(members) =>
      ScanMembers(members, true);
      assert Text(j)[1..] == MembersText(members, true);
  }

  lemma {:induction false} ScanItems(items: seq<Json>, first: bool)
    ensures Scan(Outside, ItemsText(items, first)) == Outside
    decreases items, 0
  {
    if items == [] {
      ScanPlain(Outside, "]");
    } else {
      ScanText(items[0]);
      ScanItems(items[1..], false);
      ScanPlain(Outside, Comma(first));
      ScanAppend(Outside, Comma(first), Text(items[0]));
      ScanAppend(Outside, Comma(first) + Text(items[0]), ItemsText(items[1..], false));
    }
  }

  lemma {:induction false} ScanMembers(members: seq<Member>, first: bool)
    ensures Scan(Outside, MembersText(members, first)) == Outside
    decreases members, 0
  {
    if members == [] {
      ScanPlain(Outside, "}");
    } else {
      ScanMember(members[0]);
      ScanMembers(members[1..], false);
      ScanPlain(Outside, Comma(first));
      ScanAppend(Outside, Comma(first), MemberText(members[0]));
      ScanAppend(Outside, Comma(first) + MemberText(members[0]), MembersText(members[1..], false));
    }
  }

  lemma {:induction false} ScanMember(m: Member)
    ensures Scan(Outside, MemberText(m)) == Outside
    decreases m, 0
  {
    var k, v := Quote(m.key), Text(m.value);
    ScanQuote(m.key);
    ScanText(m.value);
    ScanPlain(Outside, ":");
    ScanAppend(Outside, k, ":");
    ScanAppend(Outside, k + ":", v);
  }

  /** Read from inside and from outside a string, no text ends outside both times. */
  lemma {:induction false} QuoteParity(s: string)
    ensures !(Scan(Inside, s) == Outside && Scan(Outside, s) == Outside)
    decreases |s|
  {
    if s != "" {
      var c := s[0];
      if c == '\"' || (c != '\\' && c != '|') {
        QuoteParity(s[1..]);
      } else {
        ScanBad(s[1..]);
      }
    }
  }

  /** Cutting a JSON text at a `|` never leaves a JSON text on the right. */
  lemma NoTextAfterPipe(j: Json, k: Json, u: string)
    ensures Text(j) != u + "|" + Text(k)
  {
    if Text(j) == u + "|" + Text(k) {
      var v := Text(k);
      ScanText(j);
      ScanText(k);
      ScanAppend(Outside, u + "|", v);
      ScanAppend(Outside, u, "|");
      var m := Scan(Outside, u);
      assert Scan(m, "|") == ScanChar(m, '|');
      ScanBad(v);
      QuoteParity(v);
      assert false;
    }
  }
}
