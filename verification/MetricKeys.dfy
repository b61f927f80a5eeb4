/** Metric keys: a name and its tags printed to one text, and parsed back from it. */
module MetricKeys {
  import opened Common
  import opened Joining
  import opened Ordering

  /** The own properties of a tags object in their order; a value may be undefined. */
  type Tags = seq<(string, Option<string>)>

  type Pair = (string, string)

  /** Array elements sort by their text, which for a pair is `key,value`. */
  function PairText(p: Pair): string {
    p.0 + "," + p.1
  }

  predicate PairLeq(a: Pair, b: Pair) {
    TextLeq(PairText(a), PairText(b))
  }

  function Defined(tags: Tags): seq<Pair> {
    if tags == [] then []
    else if tags[0].1.Some? then [(tags[0].0, tags[0].1.value)] + Defined(tags[1..])
    else Defined(tags[1..])
  }

  function PrintPair(p: Pair): string {
    Join([p.0, p.1], '=')
  }

  function PrintPairs(pairs: seq<Pair>): seq<string> {
    seq(|pairs|, k requires 0 <= k < |pairs| => PrintPair(pairs[k]))
  }

  function TagText(pairs: seq<Pair>): string {
    Join(PrintPairs(pairs), ',')
  }

  function BuildKey(name: string, tags: Option<Tags>): string {
    if tags.None? || tags.value == [] then name
    else Join([name, TagText(Sort(PairLeq, Defined(tags.value)))], '|')
  }

  /** Assignment to a property: in place if it exists, at the end if not. */
  function SetTag(tags: Tags, key: string, value: Option<string>): Tags {
    if tags == [] then [(key, value)]
    else if tags[0].0 == key then [(key, value)] + tags[1..]
    else [tags[0]] + SetTag(tags[1..], key, value)
  }

  function ParsePair(pair: string): (string, Option<string>) {
    var kv := Split(pair, '=');
    (kv[0], if |kv| >= 2 then Some(kv[1]) else None)
  }

  function CollectTags(pairs: seq<string>): Tags {
    if pairs == [] then []
    else
      var last := ParsePair(Last(pairs));
      SetTag(CollectTags(pairs[..|pairs| - 1]), last.0, last.1)
  }

  function NameOf(key: string): string {
    Split(key, '|')[0]
  }

  function ParseTags(key: string): Tags {
    var parts := Split(key, '|');
    if |parts| < 2 || parts[1] == "" then [] else CollectTags(Split(parts[1], ','))
  }

  // ---------------------------------------------------------------- the order of tags

  lemma PairOrder()
    ensures TotalPreorder(PairLeq)
  {
    forall x: Pair, y: Pair ensures PairLeq(x, y) || PairLeq(y, x) {
      TextLeqTotal(PairText(x), PairText(y));
    }
    forall x: Pair, y: Pair, z: Pair | PairLeq(x, y) && PairLeq(y, z) ensures PairLeq(x, z) {
      TextLeqTransitive(PairText(x), PairText(y), PairText(z));
    }
  }

  predicate Plain(s: string) {
    '|' !in s && ',' !in s && '=' !in s
  }

  ghost predicate PlainPairs(pairs: seq<Pair>) {
    forall p :: p in pairs ==> Plain(p.0) && Plain(p.1)
  }

  lemma TextDeterminesPair(a: Pair, b: Pair)
    requires ',' !in a.0 && ',' !in b.0 && PairText(a) == PairText(b)
    ensures a == b
  {
    SplitPiece(a.0, a.1, ',');
    SplitPiece(b.0, b.1, ',');
    assert PairText(a) == a.0 + [','] + a.1 && PairText(b) == b.0 + [','] + b.1;
    assert a.0 == Split(PairText(a), ',')[0] && b.0 == Split(PairText(b), ',')[0];
    assert PairText(a)[|a.0| + 1..] == a.1 && PairText(b)[|b.0| + 1..] == b.1;
    assert a == (a.0, a.1) && b == (b.0, b.1);
  }

  lemma PlainTieFree(pairs: seq<Pair>)
    requires PlainPairs(pairs)
    ensures TieFree(PairLeq, pairs)
  {
    forall x, y | x in pairs && y in pairs && PairLeq(x, y) && PairLeq(y, x) ensures x == y {
      TextLeqTotal(PairText(x), PairText(y));
      TextDeterminesPair(x, y);
    }
  }

  /** Sorting plain tags depends only on which tags there are. */
  lemma SortedTags(pairs: seq<Pair>)
    requires PlainPairs(pairs)
    ensures multiset(Sort(PairLeq, pairs)) == multiset(pairs) && PlainPairs(Sort(PairLeq, pairs))
    ensures forall others: seq<Pair> :: multiset(others) == multiset(pairs) ==>
              Sort(PairLeq, others) == Sort(PairLeq, pairs)
    ensures Sort(PairLeq, Sort(PairLeq, pairs)) == Sort(PairLeq, pairs)
  {
    PairOrder();
    PlainTieFree(pairs);
    SortIsSortedPermutation(PairLeq, pairs);
    SameElements(pairs, Sort(PairLeq, pairs));
    forall others: seq<Pair> | multiset(others) == multiset(pairs)
      ensures Sort(PairLeq, others) == Sort(PairLeq, pairs)
    {
      SortIgnoresOrder(PairLeq, pairs, others);
    }
  }

  // ---------------------------------------------------------------- the text parses back

  lemma PairsPrintPlain(pairs: seq<Pair>)
    requires PlainPairs(pairs)
    ensures forall t :: t in PrintPairs(pairs) ==> ',' !in t && '|' !in t && t != ""
  {
    forall k | 0 <= k < |pairs|
      ensures ',' !in PrintPair(pairs[k]) && '|' !in PrintPair(pairs[k]) && PrintPair(pairs[k]) != ""
    {
      JoinAvoids([pairs[k].0, pairs[k].1], '=', ',');
      JoinAvoids([pairs[k].0, pairs[k].1], '=', '|');
    }
  }

  ghost predicate DistinctKeys(pairs: seq<Pair>) {
    forall i, j :: 0 <= i < j < |pairs| ==> pairs[i].0 != pairs[j].0
  }

  function AllDefined(pairs: seq<Pair>): Tags {
    seq(|pairs|, k requires 0 <= k < |pairs| => (pairs[k].0, Some(pairs[k].1)))
  }

  lemma {:induction false} SetNewTag(tags: Tags, key: string, value: Option<string>)
    requires forall k :: 0 <= k < |tags| ==> tags[k].0 != key
    ensures SetTag(tags, key, value) == tags + [(key, value)]
  {
    if tags != [] {
      SetNewTag(tags[1..], key, value);
    }
  }

  lemma ParsePrintedPair(p: Pair)
    requires Plain(p.0) && Plain(p.1)
    ensures ParsePair(PrintPair(p)) == (p.0, Some(p.1))
  {
    SplitJoin([p.0, p.1], '=');
  }

  lemma {:induction false} CollectPrinted(pairs: seq<Pair>)
    requires PlainPairs(pairs) && DistinctKeys(pairs)
    ensures CollectTags(PrintPairs(pairs)) == AllDefined(pairs)
    decreases |pairs|
  {
    if pairs != [] {
      var n := |pairs| - 1;
      assert PrintPairs(pairs)[..n] == PrintPairs(pairs[..n]);
      assert AllDefined(pairs) == AllDefined(pairs[..n]) + [(pairs[n].0, Some(pairs[n].1))];
      CollectPrinted(pairs[..n]);
      ParsePrintedPair(pairs[n]);
      SetNewTag(AllDefined(pairs[..n]), pairs[n].0, Some(pairs[n].1));
    }
  }

  lemma TagTextPlain(pairs: seq<Pair>)
    requires PlainPairs(pairs)
    ensures '|' !in TagText(pairs)
    ensures pairs != [] ==> Split(TagText(pairs), ',') == PrintPairs(pairs) && TagText(pairs) != ""
  {
    PairsPrintPlain(pairs);
    JoinAvoids(PrintPairs(pairs), ',', '|');
    if pairs != [] {
      SplitJoin(PrintPairs(pairs), ',');
      assert PrintPairs(pairs)[0] in PrintPairs(pairs);
    }
  }

  /** The name and the sorted tags come back from the key they were printed to. */
  lemma ParseBack(name: string, pairs: seq<Pair>)
    requires NoPipe(name) && PlainPairs(pairs) && DistinctKeys(pairs)
    ensures var key := Join([name, TagText(pairs)], '|');
            NameOf(key) == name && ParseTags(key) == AllDefined(pairs)
  {
    TagTextPlain(pairs);
    SplitJoin([name, TagText(pairs)], '|');
    if pairs != [] {
      CollectPrinted(pairs);
    }
  }

  lemma {:induction false} DefinedOfAllDefined(pairs: seq<Pair>)
    ensures Defined(AllDefined(pairs)) == pairs
  {
    if pairs != [] {
      assert AllDefined(pairs)[1..] == AllDefined(pairs[1..]);
      DefinedOfAllDefined(pairs[1..]);
    }
  }

  // ---------------------------------------------------------------- the two theorems

  ghost predicate PlainTags(tags: Tags) {
    PlainPairs(Defined(tags)) && DistinctKeys(Defined(tags))
  }

  function Rebuilt(key: string): string {
    BuildKey(NameOf(key), Some(ParseTags(key)))
  }

  predicate Untagged(tags: Option<Tags>) {
    tags.None? || tags.value == []
  }

  lemma PermutedKeysDistinct(pairs: seq<Pair>, others: seq<Pair>)
    requires DistinctKeys(pairs) && multiset(pairs) == multiset(others)
    ensures DistinctKeys(others)
  {
    forall i, j | 0 <= i < j < |others| ensures others[i].0 != others[j].0 {
      if others[i].0 == others[j].0 {
        SameElements(pairs, others);
        assert others[i] in pairs && others[j] in pairs;
        var a :| 0 <= a < |pairs| && pairs[a] == others[i];
        var b :| 0 <= b < |pairs| && pairs[b] == others[j];
        assert a == b;
        OccursTwice(others, i, j);
        OccursOnce(pairs, a);
        assert false;
      }
    }
  }

  lemma OccursTwice(xs: seq<Pair>, i: nat, j: nat)
    requires i < j < |xs| && xs[i] == xs[j]
    ensures multiset(xs)[xs[i]] >= 2
  {
    assert xs == xs[..j] + [xs[j]] + xs[j + 1..];
    assert xs[i] in xs[..j];
  }

  lemma OccursOnce(xs: seq<Pair>, i: nat)
    requires DistinctKeys(xs) && i < |xs|
    ensures multiset(xs)[xs[i]] == 1
  {
    assert xs == xs[..i] + [xs[i]] + xs[i + 1..];
    assert xs[i] !in xs[..i] && xs[i] !in xs[i + 1..];
  }

  lemma SortedStayPlain(tags: Tags)
    requires PlainTags(tags)
    ensures PlainPairs(Sort(PairLeq, Defined(tags))) && DistinctKeys(Sort(PairLeq, Defined(tags)))
    ensures Sort(PairLeq, Defined(tags)) == [] <==> Defined(tags) == []
  {
    SortedTags(Defined(tags));
    SameElements(Defined(tags), Sort(PairLeq, Defined(tags)));
    PermutedKeysDistinct(Defined(tags), Sort(PairLeq, Defined(tags)));
  }

  /** A key rebuilds to itself exactly when no tags were given or one of them is defined. */
  lemma RoundTripExact(name: string, tags: Option<Tags>)
    requires NoPipe(name) && (tags.Some? ==> PlainTags(tags.value))
    ensures Rebuilt(BuildKey(name, tags)) == BuildKey(name, tags) <==> Untagged(tags) || Defined(tags.value) != []
    ensures Rebuilt(BuildKey(name, tags)) ==
            if Untagged(tags) || Defined(tags.value) == [] then name else BuildKey(name, tags)
  {
    if Untagged(tags) {
      SplitPiece(name, "", '|');
    } else {
      var pairs := Sort(PairLeq, Defined(tags.value));
      SortedStayPlain(tags.value);
      SortedTags(Defined(tags.value));
      ParseBack(name, pairs);
      DefinedOfAllDefined(pairs);
    }
  }

  /** Two keys are equal exactly when the names and the defined tags are, in whatever order. */
  lemma KeysDistinguish(name: string, tags: Option<Tags>, other: string, others: Option<Tags>)
    requires NoPipe(name) && (tags.Some? ==> PlainTags(tags.value))
    requires NoPipe(other) && (others.Some? ==> PlainTags(others.value))
    ensures BuildKey(name, tags) == BuildKey(other, others) <==>
      && name == other
      && (Untagged(tags) <==> Untagged(others))
      && (!Untagged(tags) && !Untagged(others) ==> multiset(Defined(tags.value)) == multiset(Defined(others.value)))
  {
    SplitPiece(name, "", '|');
    SplitPiece(other, "", '|');
    if !Untagged(tags) {
      KeyParts(name, tags.value);
    }
    if !Untagged(others) {
      KeyParts(other, others.value);
    }
  }

  lemma KeyParts(name: string, tags: Tags)
    requires NoPipe(name) && tags != [] && PlainTags(tags)
    ensures var key := BuildKey(name, Some(tags));
            && |Split(key, '|')| == 2 && NameOf(key) == name
            && multiset(Defined(ParseTags(key))) == multiset(Defined(tags))
    ensures forall others: Tags :: others != [] && multiset(Defined(others)) == multiset(Defined(tags)) ==>
              BuildKey(name, Some(others)) == BuildKey(name, Some(tags))
  {
    var pairs := Sort(PairLeq, Defined(tags));
    SortedStayPlain(tags);
    SortedTags(Defined(tags));
    TagTextPlain(pairs);
    SplitJoin([name, TagText(pairs)], '|');
    ParseBack(name, pairs);
    DefinedOfAllDefined(pairs);
  }

  /** In a key the tags stand in the UTF-16 order of their texts `key,value`. */
  lemma TagsInOrder(name: string, tags: Tags, i: nat, j: nat)
    requires NoPipe(name) && tags != [] && PlainTags(tags)
    requires i < j < |ParseTags(BuildKey(name, Some(tags)))|
    ensures var parsed := ParseTags(BuildKey(name, Some(tags)));
            && parsed[i].1.Some? && parsed[j].1.Some?
            && UnitsLeq(Units(parsed[i].0 + "," + parsed[i].1.value), Units(parsed[j].0 + "," + parsed[j].1.value))
  {
    var pairs := Sort(PairLeq, Defined(tags));
    SortedStayPlain(tags);
    ParseBack(name, pairs);
    PairOrder();
    SortIsSortedPermutation(PairLeq, Defined(tags));
    assert PairLeq(pairs[i], pairs[j]);
    TextOrderIsUtf16(PairText(pairs[i]), PairText(pairs[j]));
  }
}
