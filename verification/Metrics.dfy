/**
 The in-memory metrics: counters and histograms under printed keys, percentiles read from
 arrays that are sorted in place, and the export of everything.
 */
module Metrics {
  import opened Common
  import opened Ordering
  import opened MetricKeys

  datatype Percentiles = Percentiles(p50: real, p95: real, p99: real)

  predicate RealLeq(a: real, b: real) {
    a <= b
  }

  function Sorting(values: seq<real>): (sorted: seq<real>)
    ensures |sorted| == |values| && multiset(sorted) == multiset(values)
    ensures forall i, j :: 0 <= i < j < |sorted| ==> sorted[i] <= sorted[j]
  {
    SortIsSortedPermutation(RealLeq, values);
    SameElements(Sort(RealLeq, values), values);
    Sort(RealLeq, values)
  }

  function PercentilesOf(values: seq<real>): Percentiles {
    if values == [] then Percentiles(0.0, 0.0, 0.0)
    else
      var sorted := Sorting(values);
      var n := |sorted|;
      Percentiles(sorted[n / 2], sorted[n * 95 / 100], sorted[n * 99 / 100])
  }

  function Get(counters: map<string, nat>, key: string): nat {
    if key in counters then counters[key] else 0
  }

  function Bump(counters: map<string, nat>, key: string): map<string, nat> {
    counters[key := Get(counters, key) + 1]
  }

  type Histograms = map<string, seq<real>>

  function Values(histograms: Histograms, key: string): seq<real> {
    if key in histograms then histograms[key] else []
  }

  /** Some of the arrays may have been sorted since. */
  ghost predicate SameRecordings(before: Histograms, after: Histograms) {
    && before.Keys == after.Keys
    && forall key :: key in before ==> after[key] in {before[key], Sorting(before[key])}
  }

  class GovernanceMetrics {
    var counters: map<string, nat>
    var histograms: Histograms

    constructor ()
      ensures counters == map[] && histograms == map[]
    {
      counters, histograms := map[], map[];
    }

    method Increment(name: string, tags: Option<Tags>)
      modifies this`counters
      ensures counters == Bump(old(counters), BuildKey(name, tags))
    {
      var key := BuildKey(name, tags);
      var current := if key in counters then counters[key] else 0;
      counters := counters[key := current + 1];
    }

    method RecordLatency(name: string, ms: real, tags: Option<Tags>)
      modifies this`histograms
      ensures var key := BuildKey(name, tags);
              histograms == old(histograms)[key := Values(old(histograms), key) + [ms]]
    {
      var key := BuildKey(name, tags);
      var values := if key in histograms then histograms[key] else [];
      histograms := histograms[key := values + [ms]];
    }

    method GetCounter(name: string, tags: Option<Tags>) returns (n: nat)
      ensures n == Get(counters, BuildKey(name, tags))
    {
      n := Get(counters, BuildKey(name, tags));
    }

    /** Reading percentiles sorts the recorded array in place. */
    method GetLatencyPercentiles(name: string, tags: Option<Tags>) returns (p: Percentiles)
      modifies this`histograms
      ensures p == PercentilesOf(Values(old(histograms), BuildKey(name, tags)))
      ensures SameRecordings(old(histograms), histograms)
    {
      var key := BuildKey(name, tags);
      if key !in histograms || histograms[key] == [] {
        return Percentiles(0.0, 0.0, 0.0);
      }
      histograms := histograms[key := Sorting(histograms[key])];
      var sorted := histograms[key];
      var n := |sorted|;
      return Percentiles(sorted[n / 2], sorted[n * 95 / 100], sorted[n * 99 / 100]);
    }

    /** Every histogram is reported under its key, with the percentiles of the key rebuilt from it. */
    method Export() returns (counterExport: map<string, nat>, latencies: map<string, Percentiles>)
      modifies this`histograms
      ensures counterExport == counters
      ensures latencies.Keys == old(histograms).Keys
      ensures forall key :: key in latencies ==> latencies[key] == PercentilesOf(Values(old(histograms), Rebuilt(key)))
      ensures SameRecordings(old(histograms), histograms)
    {
      counterExport, latencies := counters, map[];
      var todo := histograms.Keys;
      while todo != {}
        invariant SameRecordings(old(histograms), histograms)
        invariant latencies.Keys == old(histograms).Keys - todo && todo <= old(histograms).Keys
        invariant forall key :: key in latencies ==>
                    latencies[key] == PercentilesOf(Values(old(histograms), Rebuilt(key)))
      {
        var key :| key in todo;
        ghost var before := histograms;
        var p := GetLatencyPercentiles(NameOf(key), Some(ParseTags(key)));
        SortedValuesAgree(old(histograms), before, Rebuilt(key));
        SameRecordingsCompose(old(histograms), before, histograms);
        latencies := latencies[key := p];
        todo := todo - {key};
      }
    }
  }

  // ---------------------------------------------------------------- percentiles

  /** Percentiles do not depend on the order in which the values were recorded. */
  lemma PercentilesIgnoreOrder(values: seq<real>, others: seq<real>)
    requires multiset(values) == multiset(others)
    ensures Sorting(values) == Sorting(others) && PercentilesOf(values) == PercentilesOf(others)
  {
    SortIgnoresOrder(RealLeq, values, others);
    SameElements(values, others);
  }

  lemma SortingTwice(values: seq<real>)
    ensures Sorting(Sorting(values)) == Sorting(values)
    ensures PercentilesOf(Sorting(values)) == PercentilesOf(values)
  {
    PercentilesIgnoreOrder(Sorting(values), values);
  }

  lemma SortedValuesAgree(before: Histograms, after: Histograms, key: string)
    requires SameRecordings(before, after)
    ensures PercentilesOf(Values(after, key)) == PercentilesOf(Values(before, key))
  {
    if key in before {
      SortingTwice(before[key]);
    }
  }

  lemma SameRecordingsCompose(a: Histograms, b: Histograms, c: Histograms)
    requires SameRecordings(a, b) && SameRecordings(b, c)
    ensures SameRecordings(a, c)
  {
    forall key | key in a ensures c[key] in {a[key], Sorting(a[key])} {
      SortingTwice(a[key]);
    }
  }

  /** A read in between, which sorts, does not change what is read after further recordings. */
  lemma ReadingDoesNotDisturb(values: seq<real>, more: seq<real>)
    ensures PercentilesOf(Sorting(values) + more) == PercentilesOf(values + more)
  {
    PercentilesIgnoreOrder(Sorting(values) + more, values + more);
  }

  function Below(values: seq<real>, v: real): nat {
    |Filter(values, (x: real) => x < v)|
  }

  function AtMost(values: seq<real>, v: real): nat {
    |Filter(values, (x: real) => x <= v)|
  }

  lemma {:induction false} FilterCounts(values: seq<real>, keep: real -> bool, x: real)
    ensures multiset(Filter(values, keep))[x] == if keep(x) then multiset(values)[x] else 0
  {
    if values != [] {
      assert values == [values[0]] + values[1..];
      FilterCounts(values[1..], keep, x);
    }
  }

  lemma SameCounts(values: seq<real>, others: seq<real>, keep: real -> bool)
    requires multiset(values) == multiset(others)
    ensures |Filter(values, keep)| == |Filter(others, keep)|
  {
    forall x ensures multiset(Filter(values, keep))[x] == multiset(Filter(others, keep))[x] {
      FilterCounts(values, keep, x);
      FilterCounts(others, keep, x);
    }
    assert multiset(Filter(values, keep)) == multiset(Filter(others, keep));
    SameElements(Filter(values, keep), Filter(others, keep));
  }

  lemma SortedBelow(s: seq<real>, k: nat)
    requires k < |s| && forall i, j :: 0 <= i < j < |s| ==> s[i] <= s[j]
    ensures Below(s, s[k]) <= k
  {
    var v := s[k];
    assert s == s[..k] + s[k..];
    FilterAppend(s[..k], s[k..], (x: real) => x < v);
    FilterNone(s[k..], (x: real) => x < v);
    assert |Filter(s[..k], (x: real) => x < v)| <= k;
  }

  lemma SortedAtMost(s: seq<real>, k: nat)
    requires k < |s| && forall i, j :: 0 <= i < j < |s| ==> s[i] <= s[j]
    ensures k < AtMost(s, s[k])
  {
    var v := s[k];
    assert s == s[..k + 1] + s[k + 1..];
    FilterAppend(s[..k + 1], s[k + 1..], (x: real) => x <= v);
    FilterAll(s[..k + 1], (x: real) => x <= v);
  }

  /** The value at index `k` has at most `k` values below it and more than `k` not above it. */
  lemma IndexIsRank(values: seq<real>, k: nat)
    requires k < |values|
    ensures Below(values, Sorting(values)[k]) <= k < AtMost(values, Sorting(values)[k])
  {
    var s := Sorting(values);
    var v := s[k];
    SortedBelow(s, k);
    SortedAtMost(s, k);
    SameCounts(values, s, (x: real) => x < v);
    SameCounts(values, s, (x: real) => x <= v);
  }

  /** The percentiles are recorded values, in order. */
  lemma PercentilesOrdered(values: seq<real>)
    requires values != []
    ensures var p := PercentilesOf(values);
            p.p50 in values && p.p95 in values && p.p99 in values && p.p50 <= p.p95 <= p.p99
  {
    SameElements(values, Sorting(values));
  }

  /** They have the ranks their names say. */
  lemma PercentilesAreRanked(values: seq<real>)
    requires values != []
    ensures var p := PercentilesOf(values);
            && Below(values, p.p50) <= |values| / 2 < AtMost(values, p.p50)
            && Below(values, p.p95) <= |values| * 95 / 100 < AtMost(values, p.p95)
            && Below(values, p.p99) <= |values| * 99 / 100 < AtMost(values, p.p99)
  {
    var n := |values|;
    IndexIsRank(values, n / 2);
    IndexIsRank(values, n * 95 / 100);
    IndexIsRank(values, n * 99 / 100);
  }

  /** What `export` reports for a plain key is what was recorded under it, unless all tags were undefined. */
  lemma ExportReportsOwn(name: string, tags: Option<Tags>, histograms: Histograms)
    requires NoPipe(name) && (tags.Some? ==> PlainTags(tags.value))
    ensures Untagged(tags) || Defined(tags.value) != [] ==>
              PercentilesOf(Values(histograms, Rebuilt(BuildKey(name, tags))))
              == PercentilesOf(Values(histograms, BuildKey(name, tags)))
    ensures !Untagged(tags) && Defined(tags.value) == [] ==>
              PercentilesOf(Values(histograms, Rebuilt(BuildKey(name, tags))))
              == PercentilesOf(Values(histograms, name))
  {
    RoundTripExact(name, tags);
  }
}
