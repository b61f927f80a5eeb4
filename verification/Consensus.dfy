/** The recorders of governance metrics, and the consensus rate they must add up to. */
module Consensus {
  import opened Common
  import opened Ordering
  import opened Joining
  import opened MetricKeys
  import opened Metrics

  datatype Environment = Sandbox | Production

  function EnvironmentText(e: Environment): string {
    match e case Sandbox => "sandbox" case Production => "production"
  }

  datatype Recording =
    | Decision(decision: string, riskLevel: string, action: string, env: Environment, ms: real)
    | ShadowMismatch(rge: string, validator: string, env: Environment)
    | EvaluationFailure(reason: string, env: Environment)
    | ClassifiedMismatch(kind: string, rge: string, validator: string, env: Environment)
    | ConsensusMatch(env: Environment)

  function Tagged(env: Environment): Tags {
    [("environment", Some(EnvironmentText(env)))]
  }

  function DecisionTags(r: Recording): Tags
    requires r.Decision?
  {
    [("decision", Some(r.decision)), ("risk_level", Some(r.riskLevel)), ("action", Some(r.action))] + Tagged(r.env)
  }

  function DenialTags(r: Recording): Tags
    requires r.Decision?
  {
    [("decision", Some(r.decision)), ("action", Some(r.action))] + Tagged(r.env)
  }

  function ClassifiedTags(kind: string, rge: string, validator: string, env: Environment): Tags {
    [("mismatch_type", Some(kind)), ("rge_decision", Some(rge)),
     ("old_validator_decision", Some(validator))] + Tagged(env)
  }

  function DecisionKey(r: Recording): string
    requires r.Decision?
  {
    BuildKey("governance_decisions_total", Some(DecisionTags(r)))
  }

  function DenialKey(r: Recording): string
    requires r.Decision?
  {
    BuildKey("governance_denials_total", Some(DenialTags(r)))
  }

  function ClassifiedKey(kind: string, rge: string, validator: string, env: Environment): string {
    BuildKey("governance_classified_mismatches_total", Some(ClassifiedTags(kind, rge, validator, env)))
  }

  function ComparisonsKey(env: Environment): string {
    BuildKey("governance_shadow_comparisons_total", Some(Tagged(env)))
  }

  function MatchesKey(env: Environment): string {
    BuildKey("governance_shadow_matches_total", Some(Tagged(env)))
  }

  /** The counters a recorder increments, in order. */
  function Increments(r: Recording): seq<string> {
    match r
    case Decision(decision, _, _, _, _) =>
      [DecisionKey(r)] + if decision in {"DENY", "REQUIRE_APPROVAL"} then [DenialKey(r)] else []
    case ShadowMismatch(rge, validator, env) =>
      [BuildKey("governance_shadow_mismatches_total", Some(
        [("rge_decision", Some(rge)), ("old_validator_decision", Some(validator))] + Tagged(env)))]
    case EvaluationFailure(reason, env) =>
      [BuildKey("governance_evaluation_failures_total", Some([("reason", Some(reason))] + Tagged(env)))]
    case ClassifiedMismatch(kind, rge, validator, env) =>
      [ClassifiedKey(kind, rge, validator, env), ComparisonsKey(env)]
    case ConsensusMatch(env) => [MatchesKey(env), ComparisonsKey(env)]
  }

  function BumpAll(counters: map<string, nat>, keys: seq<string>): map<string, nat>
    decreases |keys|
  {
    if keys == [] then counters else BumpAll(Bump(counters, keys[0]), keys[1..])
  }

  /** The tags of the latency a decision records. */
  function LatencyKey(r: Recording): string
    requires r.Decision?
  {
    BuildKey("governance_evaluation_ms", Some([("decision", Some(r.decision))] + Tagged(r.env)))
  }

  /** The recorder functions. */
  method Record(metrics: GovernanceMetrics, r: Recording)
    modifies metrics
    ensures metrics.counters == BumpAll(old(metrics.counters), Increments(r))
    ensures metrics.histograms ==
      if r.Decision?
      then old(metrics.histograms)[LatencyKey(r) := Values(old(metrics.histograms), LatencyKey(r)) + [r.ms]]
      else old(metrics.histograms)
  {
    match r
    case Decision(decision, riskLevel, action, env, ms) =>
      BumpTwo(metrics.counters, DecisionKey(r), DenialKey(r));
      metrics.Increment("governance_decisions_total", Some(DecisionTags(r)));
      if decision == "DENY" || decision == "REQUIRE_APPROVAL" {
        metrics.Increment("governance_denials_total", Some(DenialTags(r)));
      }
      metrics.RecordLatency("governance_evaluation_ms", ms, Some([("decision", Some(decision))] + Tagged(env)));
    case ShadowMismatch(rge, validator, env) =>
      metrics.Increment("governance_shadow_mismatches_total", Some(
        [("rge_decision", Some(rge)), ("old_validator_decision", Some(validator))] + Tagged(env)));
    case EvaluationFailure(reason, env) =>
      metrics.Increment("governance_evaluation_failures_total", Some([("reason", Some(reason))] + Tagged(env)));
    case ClassifiedMismatch(kind, rge, validator, env) =>
      BumpTwo(metrics.counters, ClassifiedKey(kind, rge, validator, env), ComparisonsKey(env));
      metrics.Increment("governance_classified_mismatches_total", Some(ClassifiedTags(kind, rge, validator, env)));
      metrics.Increment("governance_shadow_comparisons_total", Some(Tagged(env)));
    case ConsensusMatch(env) =>
      BumpTwo(metrics.counters, MatchesKey(env), ComparisonsKey(env));
      metrics.Increment("governance_shadow_matches_total", Some(Tagged(env)));
      metrics.Increment("governance_shadow_comparisons_total", Some(Tagged(env)));
  }

  function RecordAll(counters: map<string, nat>, rs: seq<Recording>): map<string, nat>
    decreases |rs|
  {
    if rs == [] then counters else RecordAll(BumpAll(counters, Increments(rs[0])), rs[1..])
  }

  function ConsensusRate(counters: map<string, nat>, env: Environment): real {
    var comparisons := Get(counters, ComparisonsKey(env));
    if comparisons == 0 then 100.0
    else Get(counters, MatchesKey(env)) as real / comparisons as real * 100.0
  }

  // ---------------------------------------------------------------- sums of counters

  ghost function Total(m: map<string, nat>): nat {
    if !exists k :: k in m then 0
    else
      var k :| k in m;
      m[k] + Total(m - {k})
  }

  lemma {:induction false} TotalWithout(m: map<string, nat>, k: string)
    requires k in m
    ensures Total(m) == m[k] + Total(m - {k})
    decreases |m|
  {
    var first :| first in m && Total(m) == m[first] + Total(m - {first});
    if first != k {
      TotalWithout(m - {first}, k);
      assert m - {first} - {k} == m - {k} - {first};
      TotalWithout(m - {k}, first);
    }
  }

  lemma TotalBump(m: map<string, nat>, k: string)
    ensures Total(Bump(m, k)) == Total(m) + 1
  {
    TotalWithout(Bump(m, k), k);
    assert Bump(m, k) - {k} == m - {k};
    if k in m {
      TotalWithout(m, k);
    } else {
      assert m - {k} == m;
    }
  }

  ghost function WithPrefix(m: map<string, nat>, prefix: string): map<string, nat> {
    map k | k in m && prefix <= k :: m[k]
  }

  lemma BumpWithPrefix(m: map<string, nat>, prefix: string, k: string)
    ensures Total(WithPrefix(Bump(m, k), prefix)) == Total(WithPrefix(m, prefix)) + if prefix <= k then 1 else 0
  {
    if prefix <= k {
      assert WithPrefix(Bump(m, k), prefix) == Bump(WithPrefix(m, prefix), k);
      TotalBump(WithPrefix(m, prefix), k);
    } else {
      assert WithPrefix(Bump(m, k), prefix) == WithPrefix(m, prefix);
    }
  }

  // ---------------------------------------------------------------- which key is which

  /** What the key of every classified mismatch of an environment starts with. */
  function ClassifiedPrefix(env: Environment): string {
    "governance_classified_mismatches_total|environment=" + EnvironmentText(env) + ","
  }

  lemma JoinTwo(a: string, b: string, sep: char)
    ensures Join([a, b], sep) == a + [sep] + b
  {
    assert [a, b][1..] == [b];
  }

  lemma KeyShape(name: string, tags: Tags)
    requires tags != []
    ensures BuildKey(name, Some(tags)) == name + "|" + TagText(Sort(PairLeq, Defined(tags)))
  {
    JoinTwo(name, TagText(Sort(PairLeq, Defined(tags))), '|');
  }

  lemma EnvironmentPair(env: Environment)
    ensures PrintPair(("environment", EnvironmentText(env))) == "environment=" + EnvironmentText(env)
  {
    JoinTwo("environment", EnvironmentText(env), '=');
    assert "environment" + ['='] == "environment=";
  }

  lemma EnvironmentKey(name: string, env: Environment)
    ensures BuildKey(name, Some(Tagged(env))) == name + "|environment=" + EnvironmentText(env)
  {
    var pair := ("environment", EnvironmentText(env));
    assert Tagged(env) == AllDefined([pair]);
    EnvironmentPair(env);
    KeyShape(name, Tagged(env));
  }

  function First(p: Pair): int {
    CodeUnitRank(PairText(p)[0])
  }

  lemma InsertAfter(x: Pair, y: Pair, rest: seq<Pair>)
    requires First(y) < First(x)
    ensures Insert(PairLeq, x, [y] + rest) == [y] + Insert(PairLeq, x, rest)
  {
    assert ([y] + rest)[1..] == rest;
  }

  lemma SortCons(x: Pair, rest: seq<Pair>)
    ensures Sort(PairLeq, [x] + rest) == Insert(PairLeq, x, Sort(PairLeq, rest))
  {
    assert ([x] + rest)[1..] == rest;
  }

  lemma SortByFirst(a: Pair, b: Pair, c: Pair, d: Pair)
    requires First(a) < First(b) < First(c) < First(d)
    ensures Sort(PairLeq, [b, d, c, a]) == [a, b, c, d]
  {
    var s := [b] + ([d] + ([c] + ([a] + [])));
    SortCons(b, [d] + ([c] + ([a] + [])));
    SortCons(d, [c] + ([a] + []));
    SortCons(c, [a] + []);
    SortCons(a, []);
    InsertAfter(c, a, []);
    InsertAfter(d, a, [c] + []);
    InsertAfter(d, c, []);
    InsertAfter(b, a, [c] + ([d] + []));
    assert [a] + [c] == [a] + ([c] + []);
    assert [a] + ([c] + [d]) == [a] + ([c] + ([d] + []));
    assert s == [b, d, c, a];
    assert [a] + ([b] + ([c] + ([d] + []))) == [a, b, c, d];
  }

  function GivenPairs(kind: string, rge: string, validator: string, env: string): seq<Pair> {
    [("mismatch_type", kind), ("rge_decision", rge), ("old_validator_decision", validator), ("environment", env)]
  }

  function SortedPairs(kind: string, rge: string, validator: string, env: string): seq<Pair> {
    [("environment", env), ("mismatch_type", kind), ("old_validator_decision", validator), ("rge_decision", rge)]
  }

  lemma ClassifiedSorted(kind: string, rge: string, validator: string, env: string)
    ensures Sort(PairLeq, GivenPairs(kind, rge, validator, env)) == SortedPairs(kind, rge, validator, env)
  {
    var sorted := SortedPairs(kind, rge, validator, env);
    SortByFirst(sorted[0], sorted[1], sorted[2], sorted[3]);
  }

  lemma TagTextHead(pairs: seq<Pair>)
    requires |pairs| > 1
    ensures TagText(pairs) == PrintPair(pairs[0]) + "," + TagText(pairs[1..])
  {
    assert PrintPairs(pairs)[1..] == PrintPairs(pairs[1..]);
  }

  lemma ClassifiedText(kind: string, rge: string, validator: string, env: Environment)
    ensures ClassifiedKey(kind, rge, validator, env) == "governance_classified_mismatches_total" + "|"
              + TagText(SortedPairs(kind, rge, validator, EnvironmentText(env)))
  {
    var text := EnvironmentText(env);
    var given := GivenPairs(kind, rge, validator, text);
    var tags := ClassifiedTags(kind, rge, validator, env);
    assert tags == AllDefined(given);
    DefinedOfAllDefined(given);
    ClassifiedSorted(kind, rge, validator, text);
    KeyShape("governance_classified_mismatches_total", tags);
  }

  lemma ClassifiedHasPrefix(kind: string, rge: string, validator: string, env: Environment)
    ensures ClassifiedPrefix(env) <= ClassifiedKey(kind, rge, validator, env)
  {
    var text := EnvironmentText(env);
    var pairs := SortedPairs(kind, rge, validator, text);
    ClassifiedText(kind, rge, validator, env);
    TagTextHead(pairs);
    EnvironmentPair(env);
  }

  // ---------------------------------------------------------------- conservation

  /** The counters of an environment count these matches and these classified mismatches. */
  ghost predicate Tallied(counters: map<string, nat>, env: Environment, matches: nat, classified: nat) {
    && Get(counters, MatchesKey(env)) == matches
    && Total(WithPrefix(counters, ClassifiedPrefix(env))) == classified
    && Get(counters, ComparisonsKey(env)) == matches + classified
  }

  /** Whether the recording is a match of the environment. */
  predicate IsMatch(r: Recording, env: Environment) {
    r == ConsensusMatch(env)
  }

  predicate IsClassified(r: Recording, env: Environment) {
    r.ClassifiedMismatch? && r.env == env
  }

  function MatchesIn(rs: seq<Recording>, env: Environment): seq<Recording> {
    Filter(rs, (r: Recording) => IsMatch(r, env))
  }

  function ClassifiedIn(rs: seq<Recording>, env: Environment): seq<Recording> {
    Filter(rs, (r: Recording) => IsClassified(r, env))
  }

  /** A key that takes no part in the tally of an environment. */
  predicate Bystander(key: string, env: Environment) {
    key != ComparisonsKey(env) && key != MatchesKey(env) && !(ClassifiedPrefix(env) <= key)
  }

  lemma BystanderKeeps(counters: map<string, nat>, key: string, env: Environment, m: nat, c: nat)
    requires Bystander(key, env)
    ensures Tallied(Bump(counters, key), env, m, c) <==> Tallied(counters, env, m, c)
  {
    BumpWithPrefix(counters, ClassifiedPrefix(env), key);
  }

  /** A key whose name differs within the first 20 characters. */
  lemma OtherName(name: string, tags: Tags, env: Environment, at: nat)
    requires tags != [] && at < |name| && at < 20
    requires name[at] != "governance_shadow_comparisons_total"[at]
    requires name[at] != "governance_shadow_matches_total"[at]
    requires name[at] != "governance_classified_mismatches_total"[at]
    ensures Bystander(BuildKey(name, Some(tags)), env)
  {
    KeyShape(name, tags);
    assert BuildKey(name, Some(tags))[at] == name[at];
    EnvironmentKey("governance_shadow_comparisons_total", env);
    EnvironmentKey("governance_shadow_matches_total", env);
    assert ClassifiedPrefix(env)[at] == "governance_classified_mismatches_total"[at];
  }

  lemma EnvironmentsDiffer(name: string, env: Environment, other: Environment)
    requires env != other
    ensures name + "|environment=" + EnvironmentText(env) != name + "|environment=" + EnvironmentText(other)
  {
    var k := |name + "|environment="|;
    assert (name + "|environment=" + EnvironmentText(env))[k] == EnvironmentText(env)[0];
    assert (name + "|environment=" + EnvironmentText(other))[k] == EnvironmentText(other)[0];
  }

  lemma KeyLetters(env: Environment)
    ensures |ComparisonsKey(env)| > 18 && ComparisonsKey(env)[18] == 'c' && ComparisonsKey(env)[11] == 's'
    ensures |MatchesKey(env)| > 18 && MatchesKey(env)[18] == 'm' && MatchesKey(env)[11] == 's'
  {
    EnvironmentKey("governance_shadow_comparisons_total", env);
    EnvironmentKey("governance_shadow_matches_total", env);
  }

  lemma PrefixLetter(env: Environment)
    ensures |ClassifiedPrefix(env)| > 11 && ClassifiedPrefix(env)[11] == 'c'
  {
    assert ClassifiedPrefix(env)[11] == "governance_classified_mismatches_total"[11];
  }

  lemma OtherEnvironmentKeys(env: Environment, other: Environment)
    requires env != other
    ensures ComparisonsKey(env) != ComparisonsKey(other) && MatchesKey(env) != MatchesKey(other)
  {
    EnvironmentKey("governance_shadow_comparisons_total", env);
    EnvironmentKey("governance_shadow_comparisons_total", other);
    EnvironmentsDiffer("governance_shadow_comparisons_total", env, other);
    EnvironmentKey("governance_shadow_matches_total", env);
    EnvironmentKey("governance_shadow_matches_total", other);
    EnvironmentsDiffer("governance_shadow_matches_total", env, other);
  }

  /** How the three kinds of keys of the consensus rate stand to the balance of an environment. */
  lemma ConsensusKeys(env: Environment, other: Environment)
    ensures env != other ==> Bystander(ComparisonsKey(other), env) && Bystander(MatchesKey(other), env)
    ensures ComparisonsKey(env) != MatchesKey(env)
    ensures !(ClassifiedPrefix(env) <= ComparisonsKey(other)) && !(ClassifiedPrefix(env) <= MatchesKey(other))
  {
    KeyLetters(env);
    KeyLetters(other);
    PrefixLetter(env);
    if env != other {
      OtherEnvironmentKeys(env, other);
    }
  }

  lemma ClassifiedKeys(kind: string, rge: string, validator: string, env: Environment, other: Environment)
    ensures ClassifiedKey(kind, rge, validator, other) != ComparisonsKey(env)
    ensures ClassifiedKey(kind, rge, validator, other) != MatchesKey(env)
    ensures ClassifiedPrefix(env) <= ClassifiedKey(kind, rge, validator, other) <==> env == other
  {
    var key := ClassifiedKey(kind, rge, validator, other);
    ClassifiedHasPrefix(kind, rge, validator, other);
    ConsensusKeys(env, other);
    ConsensusKeys(other, env);
    if env != other {
      var name := "governance_classified_mismatches_total";
      var k := |name + "|environment="|;
      assert ClassifiedPrefix(env)[k] == EnvironmentText(env)[0];
      assert ClassifiedPrefix(other)[k] == EnvironmentText(other)[0];
    }
  }

  lemma BumpTwo(counters: map<string, nat>, a: string, b: string)
    ensures BumpAll(counters, [a, b]) == Bump(Bump(counters, a), b)
    ensures BumpAll(counters, [a]) == Bump(counters, a)
  {
    var c1 := Bump(counters, a);
    assert [a, b][1..] == [b] && [b][1..] == [] && [a][1..] == [];
    assert BumpAll(c1, [b]) == BumpAll(Bump(c1, b), []) == Bump(c1, b);
    assert BumpAll(counters, [a, b]) == BumpAll(c1, [b]);
  }

  lemma OtherKeepsTally(
    counters: map<string, nat>, name: string, tags: Tags, env: Environment, at: nat, m: nat, c: nat)
    requires Tallied(counters, env, m, c)
    requires tags != [] && at < |name| && at < 20
    requires name[at] != "governance_shadow_comparisons_total"[at]
    requires name[at] != "governance_shadow_matches_total"[at]
    requires name[at] != "governance_classified_mismatches_total"[at]
    ensures Tallied(BumpAll(counters, [BuildKey(name, Some(tags))]), env, m, c)
  {
    var key := BuildKey(name, Some(tags));
    OtherName(name, tags, env, at);
    BystanderKeeps(counters, key, env, m, c);
    BumpTwo(counters, key, key);
  }

  lemma MismatchKeepsTally(counters: map<string, nat>, r: Recording, env: Environment, m: nat, c: nat)
    requires Tallied(counters, env, m, c) && r.ShadowMismatch?
    ensures Tallied(BumpAll(counters, Increments(r)), env, m, c)
  {
    OtherKeepsTally(counters, "governance_shadow_mismatches_total",
      [("rge_decision", Some(r.rge)), ("old_validator_decision", Some(r.validator))] + Tagged(r.env), env, 19, m, c);
  }

  lemma FailureKeepsTally(counters: map<string, nat>, r: Recording, env: Environment, m: nat, c: nat)
    requires Tallied(counters, env, m, c) && r.EvaluationFailure?
    ensures Tallied(BumpAll(counters, Increments(r)), env, m, c)
  {
    OtherKeepsTally(counters, "governance_evaluation_failures_total",
      [("reason", Some(r.reason))] + Tagged(r.env), env, 11, m, c);
  }

  lemma RecordKeepsTally(counters: map<string, nat>, r: Recording, env: Environment, m: nat, c: nat)
    requires Tallied(counters, env, m, c)
    ensures Tallied(BumpAll(counters, Increments(r)), env,
                    m + (if IsMatch(r, env) then 1 else 0), c + (if IsClassified(r, env) then 1 else 0))
  {
    if r.Decision? {
      DecisionKeepsTally(counters, r, env, m, c);
    } else if r.ShadowMismatch? {
      MismatchKeepsTally(counters, r, env, m, c);
    } else if r.EvaluationFailure? {
      FailureKeepsTally(counters, r, env, m, c);
    } else if r.ClassifiedMismatch? {
      ClassifiedAddsToTally(counters, r, env, m, c);
    } else {
      MatchAddsToTally(counters, r.env, env, m, c);
    }
  }

  lemma DecisionKeepsTally(counters: map<string, nat>, r: Recording, env: Environment, m: nat, c: nat)
    requires Tallied(counters, env, m, c) && r.Decision?
    ensures Tallied(BumpAll(counters, Increments(r)), env, m, c)
  {
    OtherName("governance_decisions_total", DecisionTags(r), env, 11);
    OtherName("governance_denials_total", DenialTags(r), env, 11);
    BystanderKeeps(counters, DecisionKey(r), env, m, c);
    BystanderKeeps(Bump(counters, DecisionKey(r)), DenialKey(r), env, m, c);
    BumpTwo(counters, DecisionKey(r), DenialKey(r));
  }

  lemma ClassifiedAddsToTally(counters: map<string, nat>, r: Recording, env: Environment, m: nat, c: nat)
    requires Tallied(counters, env, m, c) && r.ClassifiedMismatch?
    ensures Tallied(BumpAll(counters, Increments(r)), env, m, c + if r.env == env then 1 else 0)
  {
    var key := ClassifiedKey(r.kind, r.rge, r.validator, r.env);
    BumpTwo(counters, key, ComparisonsKey(r.env));
    ClassifiedCounted(counters, r, env);
    ConsensusKeys(env, r.env);
    BumpWithPrefix(Bump(counters, key), ClassifiedPrefix(env), ComparisonsKey(r.env));
  }

  lemma ClassifiedCounted(counters: map<string, nat>, r: Recording, env: Environment)
    requires r.ClassifiedMismatch?
    ensures var after := Bump(counters, ClassifiedKey(r.kind, r.rge, r.validator, r.env));
            && Get(after, MatchesKey(env)) == Get(counters, MatchesKey(env))
            && Get(after, ComparisonsKey(env)) == Get(counters, ComparisonsKey(env))
            && Total(WithPrefix(after, ClassifiedPrefix(env))) ==
               Total(WithPrefix(counters, ClassifiedPrefix(env))) + if r.env == env then 1 else 0
  {
    ClassifiedKeys(r.kind, r.rge, r.validator, env, r.env);
    BumpWithPrefix(counters, ClassifiedPrefix(env), ClassifiedKey(r.kind, r.rge, r.validator, r.env));
  }

  lemma MatchAddsToTally(counters: map<string, nat>, other: Environment, env: Environment, m: nat, c: nat)
    requires Tallied(counters, env, m, c)
    ensures Tallied(BumpAll(counters, [MatchesKey(other), ComparisonsKey(other)]), env,
                    m + (if other == env then 1 else 0), c)
  {
    ConsensusKeys(env, other);
    BumpTwo(counters, MatchesKey(other), ComparisonsKey(other));
    BumpWithPrefix(counters, ClassifiedPrefix(env), MatchesKey(other));
    BumpWithPrefix(Bump(counters, MatchesKey(other)), ClassifiedPrefix(env), ComparisonsKey(other));
  }

  /**
   Whatever is recorded, whatever texts it carries: the counters of an environment grow by its
   matches, by its classified mismatches, and by both for the comparisons.
   */
  lemma {:induction false} ComparisonsAddUp(
    counters: map<string, nat>, rs: seq<Recording>, env: Environment, m: nat, c: nat)
    requires Tallied(counters, env, m, c)
    ensures Tallied(RecordAll(counters, rs), env, m + |MatchesIn(rs, env)|, c + |ClassifiedIn(rs, env)|)
    decreases |rs|
  {
    if rs != [] {
      RecordKeepsTally(counters, rs[0], env, m, c);
      ComparisonsAddUp(BumpAll(counters, Increments(rs[0])), rs[1..], env,
                       m + (if IsMatch(rs[0], env) then 1 else 0), c + (if IsClassified(rs[0], env) then 1 else 0));
    }
  }

  lemma NothingIsTallied(env: Environment)
    ensures Tallied(map[], env, 0, 0)
  {
    assert WithPrefix(map[], ClassifiedPrefix(env)) == map[];
  }

  function Share(m: nat, c: nat): real {
    if m + c == 0 then 100.0 else m as real / (m + c) as real * 100.0
  }

  lemma RateOf(counters: map<string, nat>, env: Environment, m: nat, c: nat)
    requires Get(counters, MatchesKey(env)) == m && Get(counters, ComparisonsKey(env)) == m + c
    ensures ConsensusRate(counters, env) == Share(m, c)
  {
  }

  lemma RateAfter(rs: seq<Recording>, env: Environment)
    ensures ConsensusRate(RecordAll(map[], rs), env) == Share(|MatchesIn(rs, env)|, |ClassifiedIn(rs, env)|)
  {
    NothingIsTallied(env);
    RateAfterNothing(map[], rs, env);
  }

  lemma RateAfterNothing(counters: map<string, nat>, rs: seq<Recording>, env: Environment)
    requires Tallied(counters, env, 0, 0)
    ensures ConsensusRate(RecordAll(counters, rs), env) == Share(|MatchesIn(rs, env)|, |ClassifiedIn(rs, env)|)
  {
    ComparisonsAddUp(counters, rs, env, 0, 0);
    TalliedRate(RecordAll(counters, rs), env, |MatchesIn(rs, env)|, |ClassifiedIn(rs, env)|);
  }

  lemma TalliedRate(counters: map<string, nat>, env: Environment, m: nat, c: nat)
    requires Tallied(counters, env, m, c)
    ensures ConsensusRate(counters, env) == Share(m, c)
  {
    RateOf(counters, env, m, c);
  }

  /** `rate` percent of `n` are `m`, and it is full when there is nothing to share. */
  predicate PercentOf(rate: real, m: nat, n: nat) {
    (n == 0 ==> rate == 100.0) && rate * n as real == 100.0 * m as real
  }

  lemma ShareTimes(m: nat, c: nat)
    ensures PercentOf(Share(m, c), m, m + c)
  {
    if m + c > 0 {
      var n := (m + c) as real;
      var q := m as real / n;
      assert q * n == m as real;
      assert q * 100.0 * n == 100.0 * (q * n);
    }
  }

  /** The rate is the share of matches, in percent, among the comparisons recorded. */
  lemma RateIsShare(rs: seq<Recording>, env: Environment)
    ensures PercentOf(ConsensusRate(RecordAll(map[], rs), env),
                      |MatchesIn(rs, env)|, |MatchesIn(rs, env)| + |ClassifiedIn(rs, env)|)
  {
    RateAfter(rs, env);
    ShareTimes(|MatchesIn(rs, env)|, |ClassifiedIn(rs, env)|);
  }

  /** So it is a percentage. */
  lemma RateIsPercentage(rs: seq<Recording>, env: Environment)
    ensures 0.0 <= ConsensusRate(RecordAll(map[], rs), env) <= 100.0
  {
    RateAfter(rs, env);
    ShareOf(|MatchesIn(rs, env)|, |ClassifiedIn(rs, env)|);
  }

  /** It is full exactly when no mismatch of the environment was classified. */
  lemma RateExact(rs: seq<Recording>, env: Environment)
    ensures FullRate(RecordAll(map[], rs), env) <==> forall r :: r in rs ==> !(r.ClassifiedMismatch? && r.env == env)
  {
    RateAfter(rs, env);
    ShareOf(|MatchesIn(rs, env)|, |ClassifiedIn(rs, env)|);
    if ClassifiedIn(rs, env) != [] {
      assert ClassifiedIn(rs, env)[0] in ClassifiedIn(rs, env);
    }
    if r :| r in rs && r.ClassifiedMismatch? && r.env == env {
      assert r in ClassifiedIn(rs, env);
    }
  }

  predicate FullRate(counters: map<string, nat>, env: Environment) {
    ConsensusRate(counters, env) == 100.0
  }

  lemma SignOf(d: real, c: real)
    requires c > 0.0
    ensures d * c >= 0.0 <==> d >= 0.0
    ensures d * c == 0.0 <==> d == 0.0
  {
  }

  lemma ShareOf(m: nat, c: nat)
    ensures 0.0 <= Share(m, c) <= 100.0
    ensures Share(m, c) == 100.0 <==> c == 0
  {
    if m + c > 0 {
      var n := (m + c) as real;
      var q := m as real / n;
      assert q * n == m as real;
      assert (1.0 - q) * n == n - q * n == c as real;
      SignOf(q, n);
      SignOf(1.0 - q, n);
    }
  }

  // ---------------------------------------------------------------- decisions and denials

  /** A key has the name it was built from up to its first `|`. */
  lemma KeyHasName(name: string, tags: Tags, wanted: string)
    requires tags != [] && NoPipe(name) && NoPipe(wanted)
    ensures wanted + "|" <= BuildKey(name, Some(tags)) <==> wanted == name
  {
    var text := TagText(Sort(PairLeq, Defined(tags)));
    var key := BuildKey(name, Some(tags));
    KeyShape(name, tags);
    SplitPiece(name, text, '|');
    assert key == name + ['|'] + text;
    if wanted + "|" <= key {
      SplitPiece(wanted, key[|wanted| + 1..], '|');
      assert key == wanted + ['|'] + key[|wanted| + 1..];
      assert [wanted][0] == Split(key, '|')[0] == name;
    }
  }

  ghost function NamedTotal(counters: map<string, nat>, name: string): nat {
    Total(WithPrefix(counters, name + "|"))
  }

  lemma BumpNamed(counters: map<string, nat>, name: string, tags: Tags, wanted: string)
    requires tags != [] && NoPipe(name) && NoPipe(wanted)
    ensures NamedTotal(Bump(counters, BuildKey(name, Some(tags))), wanted) ==
            NamedTotal(counters, wanted) + if wanted == name then 1 else 0
  {
    KeyHasName(name, tags, wanted);
    BumpWithPrefix(counters, wanted + "|", BuildKey(name, Some(tags)));
  }

  /** What one recording adds to the counters of a name. */
  function Adds(r: Recording, name: string): nat {
    match r
    case Decision(decision, _, _, _, _) =>
      if name == "governance_decisions_total" then 1
      else if name == "governance_denials_total" && (decision == "DENY" || decision == "REQUIRE_APPROVAL") then 1
      else 0
    case ShadowMismatch(_, _, _) => if name == "governance_shadow_mismatches_total" then 1 else 0
    case EvaluationFailure(_, _) => if name == "governance_evaluation_failures_total" then 1 else 0
    case ClassifiedMismatch(_, _, _, _) =>
      if name in {"governance_classified_mismatches_total", "governance_shadow_comparisons_total"} then 1 else 0
    case ConsensusMatch(_) =>
      if name in {"governance_shadow_matches_total", "governance_shadow_comparisons_total"} then 1 else 0
  }

  function AddsAll(rs: seq<Recording>, name: string): nat {
    if rs == [] then 0 else Adds(rs[0], name) + AddsAll(rs[1..], name)
  }

  lemma DecisionAdds(counters: map<string, nat>, r: Recording, name: string)
    requires r.Decision? && NoPipe(name)
    ensures NamedTotal(BumpAll(counters, Increments(r)), name) == NamedTotal(counters, name) + Adds(r, name)
  {
    BumpTwo(counters, DecisionKey(r), DenialKey(r));
    BumpNamed(counters, "governance_decisions_total", DecisionTags(r), name);
    BumpNamed(Bump(counters, DecisionKey(r)), "governance_denials_total", DenialTags(r), name);
  }

  lemma ClassifiedAdds(counters: map<string, nat>, r: Recording, name: string)
    requires r.ClassifiedMismatch? && NoPipe(name)
    ensures NamedTotal(BumpAll(counters, Increments(r)), name) == NamedTotal(counters, name) + Adds(r, name)
  {
    var key := ClassifiedKey(r.kind, r.rge, r.validator, r.env);
    var tags := ClassifiedTags(r.kind, r.rge, r.validator, r.env);
    BumpTwo(counters, key, ComparisonsKey(r.env));
    BumpNamed(counters, "governance_classified_mismatches_total", tags, name);
    BumpNamed(Bump(counters, key), "governance_shadow_comparisons_total", Tagged(r.env), name);
  }

  lemma MatchAdds(counters: map<string, nat>, r: Recording, name: string)
    requires r.ConsensusMatch? && NoPipe(name)
    ensures NamedTotal(BumpAll(counters, Increments(r)), name) == NamedTotal(counters, name) + Adds(r, name)
  {
    var key := MatchesKey(r.env);
    BumpTwo(counters, key, ComparisonsKey(r.env));
    BumpNamed(counters, "governance_shadow_matches_total", Tagged(r.env), name);
    BumpNamed(Bump(counters, key), "governance_shadow_comparisons_total", Tagged(r.env), name);
  }

  lemma MismatchAdds(counters: map<string, nat>, r: Recording, name: string)
    requires r.ShadowMismatch? && NoPipe(name)
    ensures NamedTotal(BumpAll(counters, Increments(r)), name) == NamedTotal(counters, name) + Adds(r, name)
  {
    var tags := [("rge_decision", Some(r.rge)), ("old_validator_decision", Some(r.validator))] + Tagged(r.env);
    var key := BuildKey("governance_shadow_mismatches_total", Some(tags));
    BumpTwo(counters, key, key);
    BumpNamed(counters, "governance_shadow_mismatches_total", tags, name);
  }

  lemma FailureAdds(counters: map<string, nat>, r: Recording, name: string)
    requires r.EvaluationFailure? && NoPipe(name)
    ensures NamedTotal(BumpAll(counters, Increments(r)), name) == NamedTotal(counters, name) + Adds(r, name)
  {
    var tags := [("reason", Some(r.reason))] + Tagged(r.env);
    var key := BuildKey("governance_evaluation_failures_total", Some(tags));
    BumpTwo(counters, key, key);
    BumpNamed(counters, "governance_evaluation_failures_total", tags, name);
  }

  /**
   Summed over all tags, the counters of a name count the recordings that concern it: every
   decision, the decisions that deny or ask for approval, and so on.
   */
  lemma {:induction false} NamedTotalsExact(counters: map<string, nat>, rs: seq<Recording>, name: string)
    requires NoPipe(name)
    ensures NamedTotal(RecordAll(counters, rs), name) == NamedTotal(counters, name) + AddsAll(rs, name)
    decreases |rs|
  {
    if rs != [] {
      var r := rs[0];
      match r {
        case Decision(_, _, _, _, _) => DecisionAdds(counters, r, name);
        case ShadowMismatch(_, _, _) => MismatchAdds(counters, r, name);
        case EvaluationFailure(_, _) => FailureAdds(counters, r, name);
        case ClassifiedMismatch(_, _, _, _) => ClassifiedAdds(counters, r, name);
        case ConsensusMatch(_) => MatchAdds(counters, r, name);
      }
      NamedTotalsExact(BumpAll(counters, Increments(r)), rs[1..], name);
    }
  }
}
