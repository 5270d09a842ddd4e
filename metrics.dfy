/**
 * The metric registry: a key -> metric table with validation and
 * duplicate rejection, sorted category and tag listings, and
 * dependency-first evaluation with a memo cache shared by one call.
 *
 * A metric result is a per-date table (`Frame`). Evaluation is specified
 * by the pure `Evaluate`, which recomputes every dependency; the methods
 * that fill a cache are proved to return exactly what `Evaluate` returns,
 * and a ghost trace `runs` records each call of a compute function so
 * that "each compute function runs at most once per call" is a
 * postcondition (`NoDup(runs)`). The registry has no cycle check of its
 * own: evaluation takes a ghost `rank` under which every dependency
 * ranks below its dependent.
 */
module Metrics {
  import opened Wrappers
  import opened Seqs
  import Text
  import opened Tables

  /** A metric result: a per-date value table, and whether it has the `value` column. */
  datatype Frame = Frame(hasValue: bool, daily: map<int, real>)

  /** The tables a metric reads, and the inclusive date window. */
  datatype Context = Context(
    items: Option<Items>, adjustments: Option<Adjustments>, orders: Option<Orders>,
    startDate: int, endDate: int)

  datatype MetricError =
    | KeyRequired
    | CategoryRequired(key: string)
    | ComputeRequired(key: string)
    | AlreadyExists(key: string)
    | UnknownMetric(key: string)
    | MissingValueColumn(key: string)
    | MissingTable(table: string)
    | MissingColumn(column: string)
    | MissingDependency(dep: string)

  /** A compute function: the context and the dependencies' results, keyed by dependency. */
  type MetricFn = (Context, map<string, Frame>) -> Result<Frame, MetricError>

  datatype Metric = Metric(
    key: string, title: string, description: string,
    category: string, subcategory: string, tags: seq<string>,
    dependsOn: seq<string>, compute: Option<MetricFn>, drilldownDims: seq<string>)

  /** Metric.validate: key, then category, then compute must be present. */
  function Validate(m: Metric): (r: Outcome<MetricError>)
    ensures r.Pass? <==> m.key != "" && m.category != "" && m.compute.Some?
    ensures m.key == "" ==> r == Fail(KeyRequired)
    ensures m.key != "" && m.category == "" ==> r == Fail(CategoryRequired(m.key))
    ensures m.key != "" && m.category != "" && m.compute.None? ==> r == Fail(ComputeRequired(m.key))
  {
    if m.key == "" then Fail(KeyRequired)
    else if m.category == "" then Fail(CategoryRequired(m.key))
    else if m.compute.None? then Fail(ComputeRequired(m.key))
    else Pass
  }

  // ---------------------------------------------------------------
  // The specification of evaluation
  // ---------------------------------------------------------------

  /** Every dependency of a registered metric ranks strictly below it: the graph is acyclic. */
  ghost predicate Ranked(ms: map<string, Metric>, rank: string -> nat)
  {
    forall k, i :: k in ms && 0 <= i < |ms[k].dependsOn| ==> rank(ms[k].dependsOn[i]) < rank(k)
  }

  /**
   * The result of metric `key`: its dependencies are evaluated first, in
   * order, and handed to its compute function keyed by dependency; a
   * result without the `value` column is an error.
   */
  ghost function Evaluate(ms: map<string, Metric>, rank: string -> nat, key: string, ctx: Context): Result<Frame, MetricError>
    requires Ranked(ms, rank)
    decreases rank(key), 1
  {
    if key !in ms then Failure(UnknownMetric(key))
    else
      var m := ms[key];
      match EvalKeys(ms, rank, m.dependsOn, rank(key), ctx)
      case Failure(e) => Failure(e)
      case Success(deps) =>
        if m.compute.None? then Failure(ComputeRequired(key))
        else
          match m.compute.value(ctx, deps)
          case Failure(e) => Failure(e)
          case Success(f) => if f.hasValue then Success(f) else Failure(MissingValueColumn(key))
  }

  /**
   * Evaluating `keys` in order into a dict keyed by metric: the first
   * failure in order is the result; otherwise every key maps to its result.
   */
  ghost function EvalKeys(ms: map<string, Metric>, rank: string -> nat, keys: seq<string>, bound: nat, ctx: Context)
    : Result<map<string, Frame>, MetricError>
    requires Ranked(ms, rank)
    requires forall i :: 0 <= i < |keys| ==> rank(keys[i]) < bound
    decreases bound, 0, |keys|
  {
    if keys == [] then Success(map[])
    else
      var p := keys[..|keys| - 1];
      var k := keys[|keys| - 1];
      match EvalKeys(ms, rank, p, bound, ctx)
      case Failure(e) => Failure(e)
      case Success(done) =>
        match Evaluate(ms, rank, k, ctx)
        case Failure(e) => Failure(e)
        case Success(f) => Success(done[k := f])
  }

  /**
   * What an evaluation in order yields: on success, a dict holding exactly
   * the listed keys, each with its own result; on failure, the error of the
   * first key in order whose evaluation fails.
   */
  lemma {:induction false} EvalKeysResult(ms: map<string, Metric>, rank: string -> nat, keys: seq<string>, bound: nat, ctx: Context)
    requires Ranked(ms, rank)
    requires forall i :: 0 <= i < |keys| ==> rank(keys[i]) < bound
    ensures var r := EvalKeys(ms, rank, keys, bound, ctx);
      (r.Success? ==>
        (forall k :: k in r.value <==> k in keys)
        && forall i :: 0 <= i < |keys| ==> Evaluate(ms, rank, keys[i], ctx) == Success(r.value[keys[i]]))
      && (r.Failure? ==>
        exists i :: 0 <= i < |keys| && Evaluate(ms, rank, keys[i], ctx) == Failure(r.error)
          && forall j :: 0 <= j < i ==> Evaluate(ms, rank, keys[j], ctx).Success?)
  {
    if keys != [] {
      var p := keys[..|keys| - 1];
      var k := keys[|keys| - 1];
      EvalKeysResult(ms, rank, p, bound, ctx);
      assert forall i :: 0 <= i < |p| ==> p[i] == keys[i];
      assert keys == p + [k];
    }
  }

  /** A compute result as recorded: a frame without the `value` column is an error. */
  function Checked(key: string, r: Result<Frame, MetricError>): (c: Result<Frame, MetricError>)
    ensures c.Success? <==> r.Success? && r.value.hasValue
    ensures c.Success? ==> c == r
    ensures r.Failure? ==> c == r
    ensures r.Success? && !r.value.hasValue ==> c == Failure(MissingValueColumn(key))
  {
    match r
    case Failure(e) => Failure(e)
    case Success(f) => if f.hasValue then Success(f) else Failure(MissingValueColumn(key))
  }

  /** A metric without dependencies is computed on an empty dependency dict. */
  lemma EvaluateLeaf(ms: map<string, Metric>, rank: string -> nat, key: string, ctx: Context, fn: MetricFn)
    requires Ranked(ms, rank) && key in ms && ms[key].dependsOn == [] && ms[key].compute == Some(fn)
    ensures Evaluate(ms, rank, key, ctx) == Checked(key, fn(ctx, map[]))
  {
  }

  /**
   * A metric with two dependencies that both succeed is computed on a
   * dependency dict holding exactly their results, each under its own key.
   */
  lemma EvaluateTwoDeps(ms: map<string, Metric>, rank: string -> nat, key: string, ctx: Context, fn: MetricFn,
                        a: string, b: string, fa: Frame, fb: Frame)
    requires Ranked(ms, rank) && key in ms && ms[key].dependsOn == [a, b] && ms[key].compute == Some(fn)
    requires Evaluate(ms, rank, a, ctx) == Success(fa) && Evaluate(ms, rank, b, ctx) == Success(fb)
    ensures Evaluate(ms, rank, key, ctx) == Checked(key, fn(ctx, map[a := fa, b := fb]))
  {
    var deps := ms[key].dependsOn;
    assert deps[..1] == [a] && deps[..1][..0] == [];
    assert EvalKeys(ms, rank, [a], rank(key), ctx) == Success(map[a := fa]);
  }

  /** Every cached result is the metric's result. */
  ghost predicate SoundCache(ms: map<string, Metric>, rank: string -> nat, cache: map<string, Frame>, ctx: Context)
    requires Ranked(ms, rank)
  {
    forall k :: k in cache ==> Evaluate(ms, rank, k, ctx) == Success(cache[k])
  }

  /** `after` keeps every entry of `before`. */
  ghost predicate Extends(before: map<string, Frame>, after: map<string, Frame>)
  {
    forall k :: k in before ==> k in after && after[k] == before[k]
  }

  /** Compute functions that ran were each run once, and none had a cached result. */
  ghost predicate FreshRuns(runs: seq<string>, cache: map<string, Frame>)
  {
    NoDup(runs) && forall i :: 0 <= i < |runs| ==> runs[i] !in cache
  }

  // ---------------------------------------------------------------
  // The registry
  // ---------------------------------------------------------------

  class MetricRegistry {
    const name: string
    /** The registered metrics by key. */
    var metrics: map<string, Metric>
    /** Registration order: the iteration order of the source's dict. */
    var order: seq<string>

    ghost predicate Valid()
      reads this
    {
      NoDup(order)
      && (forall k :: k in metrics <==> k in order)
      && forall k :: k in metrics ==> metrics[k].key == k && Validate(metrics[k]).Pass?
    }

    constructor(name: string)
      ensures this.name == name && metrics == map[] && order == []
      ensures Valid()
    {
      this.name := name;
      metrics := map[];
      order := [];
    }

    /**
     * Validation comes first, then the duplicate check; on either error
     * the registry is unchanged.
     */
    method Register(m: Metric) returns (r: Outcome<MetricError>)
      requires Valid()
      modifies this
      ensures Valid()
      ensures r.Pass? <==> Validate(m).Pass? && m.key !in old(metrics)
      ensures Validate(m).Fail? ==> r == Validate(m)
      ensures Validate(m).Pass? && m.key in old(metrics) ==> r == Fail(AlreadyExists(m.key))
      ensures r.Pass? ==> metrics == old(metrics)[m.key := m] && order == old(order) + [m.key]
      ensures r.Fail? ==> metrics == old(metrics) && order == old(order)
    {
      r := Validate(m);
      if r.Fail? {
        return;
      }
      if m.key in metrics {
        return Fail(AlreadyExists(m.key));
      }
      metrics := metrics[m.key := m];
      order := order + [m.key];
    }

    function Get(key: string): (r: Result<Metric, MetricError>)
      reads this
      ensures r.Success? <==> key in metrics
      ensures r.Success? ==> r.value == metrics[key]
      ensures r.Failure? ==> r.error == UnknownMetric(key)
    {
      if key in metrics then Success(metrics[key]) else Failure(UnknownMetric(key))
    }

    /** The categories of the registered metrics, sorted, each once. */
    function Categories(): (r: seq<string>)
      reads this
      requires Valid()
      ensures Text.StrictlySorted(r)
      ensures forall i :: 0 <= i < |r| ==> exists k :: k in metrics && metrics[k].category == r[i]
      ensures forall k :: k in metrics ==> metrics[k].category in r
    {
      var ms, ks := metrics, order;
      var cats := seq(|ks|, i requires 0 <= i < |ks| && ks[i] in ms => ms[ks[i]].category);
      var r := Text.SortedSet(cats);
      assert forall k :: k in metrics ==> metrics[k].category in r by {
        forall k | k in metrics ensures metrics[k].category in r {
          var i :| 0 <= i < |ks| && ks[i] == k;
          assert cats[i] == metrics[k].category;
        }
      }
      r
    }

    /** The registered metrics whose keys satisfy `keep`, sorted by key. */
    function SortedSelection(keep: string -> bool): (r: seq<Metric>)
      reads this
      requires Valid()
      ensures forall i :: 0 <= i < |r| ==> r[i].key in metrics && metrics[r[i].key] == r[i] && keep(r[i].key)
      ensures forall k :: k in metrics && keep(k) ==> exists i :: 0 <= i < |r| && r[i].key == k
      ensures Text.StrictlySorted(MetricKeys(r))
    {
      var ms := metrics;
      var ks := Filter(order, keep);
      var sorted := Text.SortedSet(ks);
      var r := seq(|sorted|, i requires 0 <= i < |sorted| => ms[sorted[i]]);
      assert MetricKeys(r) == sorted;
      assert forall k :: k in metrics && keep(k) ==> exists i :: 0 <= i < |r| && r[i].key == k by {
        forall k | k in metrics && keep(k) ensures exists i :: 0 <= i < |r| && r[i].key == k {
          assert k in ks;
          var i :| 0 <= i < |sorted| && sorted[i] == k;
          assert r[i].key == k;
        }
      }
      r
    }

    /**
     * The metrics of `category` (and of `subcategory`, unless it is
     * empty), sorted by key.
     */
    function ListByCategory(category: string, subcategory: string): (r: seq<Metric>)
      reads this
      requires Valid()
      ensures forall i :: 0 <= i < |r| ==>
        r[i].key in metrics && metrics[r[i].key] == r[i] && InCategory(r[i], category, subcategory)
      ensures forall k :: k in metrics && InCategory(metrics[k], category, subcategory) ==>
        exists i :: 0 <= i < |r| && r[i].key == k
      ensures Text.StrictlySorted(MetricKeys(r))
    {
      var ms := metrics;
      SortedSelection(k => k in ms && InCategory(ms[k], category, subcategory))
    }

    /** The metrics carrying `tag`, sorted by key. */
    function ListByTag(tag: string): (r: seq<Metric>)
      reads this
      requires Valid()
      ensures forall i :: 0 <= i < |r| ==> r[i].key in metrics && metrics[r[i].key] == r[i] && tag in r[i].tags
      ensures forall k :: k in metrics && tag in metrics[k].tags ==> exists i :: 0 <= i < |r| && r[i].key == k
      ensures Text.StrictlySorted(MetricKeys(r))
    {
      var ms := metrics;
      SortedSelection(k => k in ms && tag in ms[k].tags)
    }

    /** What compute_category evaluates: the category's metrics, narrowed to `tag` unless it is empty, sorted by key. */
    function CategorySelection(category: string, tag: string): (r: seq<Metric>)
      reads this
      requires Valid()
      ensures forall i :: 0 <= i < |r| ==>
        r[i].key in metrics && metrics[r[i].key] == r[i] && Selected(r[i], category, tag)
      ensures forall k :: k in metrics && Selected(metrics[k], category, tag) ==>
        exists i :: 0 <= i < |r| && r[i].key == k
      ensures Text.StrictlySorted(MetricKeys(r))
    {
      var ms := metrics;
      SortedSelection(k => k in ms && Selected(ms[k], category, tag))
    }

    /**
     * _compute_recursive: a cached key is returned as is; otherwise the
     * dependencies are computed in order (sharing the cache), then the
     * metric's own compute function runs once and a result with a `value`
     * column is cached.
     */
    method ComputeRecursive(key: string, ctx: Context, cache: map<string, Frame>, ghost rank: string -> nat)
      returns (r: Result<Frame, MetricError>, cache': map<string, Frame>, ghost runs: seq<string>)
      requires Ranked(metrics, rank) && SoundCache(metrics, rank, cache, ctx)
      ensures r == Evaluate(metrics, rank, key, ctx)
      ensures SoundCache(metrics, rank, cache', ctx) && Extends(cache, cache')
      ensures FreshRuns(runs, cache)
      ensures forall i :: 0 <= i < |runs| ==> rank(runs[i]) <= rank(key)
      ensures r.Success? ==> key in cache' && forall i :: 0 <= i < |runs| ==> runs[i] in cache'
      ensures key in cache ==> runs == [] && cache' == cache
      ensures key !in cache && r.Success? ==> runs != [] && runs[|runs| - 1] == key
      decreases rank(key), 1
    {
      if key in cache {
        return Success(cache[key]), cache, [];
      }
      var got := Get(key);
      if got.Failure? {
        return Failure(got.error), cache, [];
      }
      var m := got.value;
      var deps;
      deps, cache', runs := ComputeDeps(m.dependsOn, ctx, cache, rank, rank(key));
      if deps.Failure? {
        return Failure(deps.error), cache', runs;
      }
      var depResults := deps.value;
      if m.compute.None? {
        return Failure(ComputeRequired(key)), cache', runs;
      }
      var res := m.compute.value(ctx, depResults);
      AppendOne(runs, key, cache);
      runs := runs + [key];
      if res.Failure? {
        return Failure(res.error), cache', runs;
      }
      if !res.value.hasValue {
        return Failure(MissingValueColumn(key)), cache', runs;
      }
      r := Success(res.value);
      cache' := cache'[key := res.value];
    }

    /**
     * The dependency loop of _compute_recursive: each dependency in order,
     * sharing the cache, collected into a dict keyed by dependency; the
     * first failure ends the loop.
     */
    method ComputeDeps(deps: seq<string>, ctx: Context, cache: map<string, Frame>, ghost rank: string -> nat, ghost bound: nat)
      returns (r: Result<map<string, Frame>, MetricError>, cache': map<string, Frame>, ghost runs: seq<string>)
      requires Ranked(metrics, rank) && SoundCache(metrics, rank, cache, ctx)
      requires forall j :: 0 <= j < |deps| ==> rank(deps[j]) < bound
      ensures r == EvalKeys(metrics, rank, deps, bound, ctx)
      ensures SoundCache(metrics, rank, cache', ctx) && Extends(cache, cache')
      ensures FreshRuns(runs, cache)
      ensures forall j :: 0 <= j < |runs| ==> rank(runs[j]) < bound
      ensures r.Success? ==> forall j :: 0 <= j < |runs| ==> runs[j] in cache'
      decreases bound, 0
    {
      var out: map<string, Frame> := map[];
      cache', runs := cache, [];
      var i := 0;
      while i < |deps|
        invariant 0 <= i <= |deps|
        invariant EvalKeys(metrics, rank, deps[..i], bound, ctx) == Success(out)
        invariant SoundCache(metrics, rank, cache', ctx) && Extends(cache, cache')
        invariant FreshRuns(runs, cache)
        invariant forall j :: 0 <= j < |runs| ==> runs[j] in cache' && rank(runs[j]) < bound
      {
        var d, c2, rs := ComputeRecursive(deps[i], ctx, cache', rank);
        EvalKeysStep(metrics, rank, deps, bound, ctx, i);
        AppendFresh(runs, rs, cache, cache');
        if d.Failure? {
          EvalKeysFailure(metrics, rank, deps, bound, ctx, i + 1);
          return Failure(d.error), c2, runs + rs;
        }
        out := out[deps[i] := d.value];
        cache', runs := c2, runs + rs;
        i := i + 1;
      }
      assert deps[..|deps|] == deps;
      r := Success(out);
    }

    /** compute_metric: one evaluation with a fresh cache. */
    method ComputeMetric(key: string, ctx: Context, ghost rank: string -> nat)
      returns (r: Result<Frame, MetricError>, ghost runs: seq<string>)
      requires Ranked(metrics, rank)
      ensures r == Evaluate(metrics, rank, key, ctx)
      ensures NoDup(runs)
    {
      var cache;
      r, cache, runs := ComputeRecursive(key, ctx, map[], rank);
    }

    /**
     * compute_category: the selected metrics in key order, with one cache
     * shared by the whole call, collected into a dict keyed by metric.
     */
    method ComputeCategory(category: string, ctx: Context, tag: string, ghost rank: string -> nat)
      returns (r: Result<map<string, Frame>, MetricError>, ghost runs: seq<string>)
      requires Valid() && Ranked(metrics, rank)
      ensures r == EvalKeys(metrics, rank, MetricKeys(CategorySelection(category, tag)),
                            MaxRank(rank, MetricKeys(CategorySelection(category, tag))) + 1, ctx)
      ensures NoDup(runs)
    {
      var keys := MetricKeys(CategorySelection(category, tag));
      ghost var bound := MaxRank(rank, keys) + 1;
      var cache;
      r, cache, runs := ComputeDeps(keys, ctx, map[], rank, bound);
    }

    /**
     * A successful compute_category holds exactly the selected metrics,
     * each with its own result.
     */
    lemma CategoryResult(category: string, tag: string, ctx: Context, rank: string -> nat)
      requires Valid() && Ranked(metrics, rank)
      ensures var keys := MetricKeys(CategorySelection(category, tag));
        var r := EvalKeys(metrics, rank, keys, MaxRank(rank, keys) + 1, ctx);
        r.Success? ==>
          (forall k :: k in r.value <==> k in metrics && Selected(metrics[k], category, tag))
          && forall k :: k in r.value ==> Evaluate(metrics, rank, k, ctx) == Success(r.value[k])
    {
      var keys := MetricKeys(CategorySelection(category, tag));
      var bound := MaxRank(rank, keys) + 1;
      EvalKeysResult(metrics, rank, keys, bound, ctx);
      SelectionKeys(category, tag);
    }

    /** The keys compute_category evaluates are exactly the selected metrics. */
    lemma SelectionKeys(category: string, tag: string)
      requires Valid()
      ensures forall k :: k in MetricKeys(CategorySelection(category, tag)) <==> k in metrics && Selected(metrics[k], category, tag)
    {
      var sel := CategorySelection(category, tag);
      var keys := MetricKeys(sel);
      forall k | k in keys ensures k in metrics && Selected(metrics[k], category, tag) {
        var i :| 0 <= i < |keys| && keys[i] == k;
      }
      forall k | k in metrics && Selected(metrics[k], category, tag) ensures k in keys {
        var i :| 0 <= i < |sel| && sel[i].key == k;
        assert keys[i] == k;
      }
    }
  }

  /** One more key of an evaluation in order: its failure stops it, its result is added. */
  lemma EvalKeysStep(ms: map<string, Metric>, rank: string -> nat, keys: seq<string>, bound: nat, ctx: Context, i: nat)
    requires Ranked(ms, rank)
    requires forall j :: 0 <= j < |keys| ==> rank(keys[j]) < bound
    requires i < |keys| && EvalKeys(ms, rank, keys[..i], bound, ctx).Success?
    ensures EvalKeys(ms, rank, keys[..i + 1], bound, ctx) ==
      match Evaluate(ms, rank, keys[i], ctx)
      case Failure(e) => Failure(e)
      case Success(f) => Success(EvalKeys(ms, rank, keys[..i], bound, ctx).value[keys[i] := f])
  {
    assert keys[..i + 1][..i] == keys[..i];
  }

  /** Runs that were fresh against a grown cache stay duplicate-free when appended. */
  lemma AppendFresh(runs: seq<string>, rs: seq<string>, before: map<string, Frame>, now: map<string, Frame>)
    requires FreshRuns(runs, before) && FreshRuns(rs, now) && Extends(before, now)
    requires forall j :: 0 <= j < |runs| ==> runs[j] in now
    ensures FreshRuns(runs + rs, before)
  {
    var t := runs + rs;
    forall i, j | 0 <= i < j < |t| ensures t[i] != t[j] {
      if j >= |runs| && i < |runs| {
        assert t[i] in now && t[j] == rs[j - |runs|];
      }
    }
  }

  /** An evaluation in order that fails on a prefix fails with the same error on the whole list. */
  lemma {:induction false} EvalKeysFailure(ms: map<string, Metric>, rank: string -> nat, keys: seq<string>, bound: nat, ctx: Context, n: nat)
    requires Ranked(ms, rank)
    requires forall j :: 0 <= j < |keys| ==> rank(keys[j]) < bound
    requires n <= |keys| && EvalKeys(ms, rank, keys[..n], bound, ctx).Failure?
    ensures EvalKeys(ms, rank, keys, bound, ctx) == EvalKeys(ms, rank, keys[..n], bound, ctx)
    decreases |keys| - n
  {
    if n < |keys| {
      var p := keys[..|keys| - 1];
      assert p[..n] == keys[..n];
      EvalKeysFailure(ms, rank, p, bound, ctx, n);
    } else {
      assert keys[..n] == keys;
    }
  }

  lemma AppendOne(runs: seq<string>, key: string, cache: map<string, Frame>)
    requires FreshRuns(runs, cache) && key !in runs && key !in cache
    ensures FreshRuns(runs + [key], cache)
  {
  }

  /** The keys of a list of metrics. */
  function MetricKeys(ms: seq<Metric>): (ks: seq<string>)
    ensures |ks| == |ms|
    ensures forall i :: 0 <= i < |ms| ==> ks[i] == ms[i].key
  {
    seq(|ms|, i requires 0 <= i < |ms| => ms[i].key)
  }

  predicate Selected(m: Metric, category: string, tag: string)
  {
    m.category == category && (tag == "" || tag in m.tags)
  }

  predicate InCategory(m: Metric, category: string, subcategory: string)
  {
    m.category == category && (subcategory != "" ==> m.subcategory == subcategory)
  }

  /** A rank bound for `keys`. */
  ghost function MaxRank(rank: string -> nat, keys: seq<string>): (m: nat)
    ensures forall i :: 0 <= i < |keys| ==> rank(keys[i]) <= m
  {
    if keys == [] then 0
    else
      var p := MaxRank(rank, keys[..|keys| - 1]);
      var x := rank(keys[|keys| - 1]);
      assert forall i :: 0 <= i < |keys| - 1 ==> keys[..|keys| - 1][i] == keys[i];
      if p < x then x else p
  }
}
