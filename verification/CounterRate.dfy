/** Rates of label-aware counters between two scrapes.  Values are reals, or not finite. */
module CounterRate {
  import opened Wrappers
  import opened Totals

  type Labels = map<string, string>

  datatype Series = Series(name: string, labels: Labels)

  datatype Value = Finite(x: real) | NonFinite

  type Samples = map<Series, Value>

  /** The series of one metric that occur in either scrape. */
  function KeysOf(previous: Samples, current: Samples, name: string): set<Series> {
    set k | k in previous.Keys + current.Keys && k.name == name
  }

  /** Neither missing in a scrape, nor not finite, nor reset in between. */
  predicate Continues(previous: Samples, current: Samples, k: Series) {
    && k in previous && k in current
    && previous[k].Finite? && current[k].Finite?
    && previous[k].x <= current[k].x
  }

  ghost function Increases(previous: Samples, current: Samples, name: string): map<Series, real>
    requires forall k :: k in KeysOf(previous, current, name) ==> Continues(previous, current, k)
  {
    map k | k in KeysOf(previous, current, name) ::
      assert Continues(previous, current, k); current[k].x - previous[k].x
  }

  ghost function Rate(previous: Samples, current: Samples, name: string, seconds: real): Option<real> {
    var keys := KeysOf(previous, current, name);
    if keys == {} || seconds <= 0.0 then None
    else if forall k :: k in keys ==> Continues(previous, current, k)
    then Some(Total(Increases(previous, current, name)) / seconds)
    else None
  }

  /** The values of the metric in one scrape. */
  ghost function ValuesAt(samples: Samples, name: string): map<Series, real> {
    map k | k in samples && k.name == name && samples[k].Finite? :: samples[k].x
  }

  /** There is no gap: the metric has a series, and the same finite ones in both scrapes, none of them lower. */
  ghost predicate NoGap(previous: Samples, current: Samples, name: string) {
    && (exists k :: k in current && k.name == name)
    && (forall k: Series :: k.name == name && (k in previous || k in current) ==> Continues(previous, current, k))
  }

  lemma IncreasesAre(previous: Samples, current: Samples, name: string)
    requires NoGap(previous, current, name)
    ensures forall k :: k in KeysOf(previous, current, name) ==> Continues(previous, current, k)
    ensures Total(Increases(previous, current, name))
         == Total(ValuesAt(current, name)) - Total(ValuesAt(previous, name))
  {
    assert forall k :: k in KeysOf(previous, current, name) ==> Continues(previous, current, k);
    var was, now, more := ValuesAt(previous, name), ValuesAt(current, name), Increases(previous, current, name);
    assert was.Keys == now.Keys == more.Keys;
    TotalAdds(was, more, now);
  }

  /** `counter_rate` with its two passes over the keys: one that looks for gaps, one that sums.  There is
      a rate exactly without a gap, and times the duration it is what the sum over the series rose by. */
  method CounterRate(previous: Samples, current: Samples, name: string, seconds: real) returns (rate: Option<real>)
    ensures rate == Rate(previous, current, name, seconds)
    ensures rate.Some? <==> seconds > 0.0 && NoGap(previous, current, name)
    ensures rate.Some? ==>
      rate.value * seconds == Total(ValuesAt(current, name)) - Total(ValuesAt(previous, name))
  {
    rate := SumAndDivide(previous, current, name, seconds);
    RateExactly(previous, current, name, seconds, rate);
    if rate.Some? { RateMeans(previous, current, name, seconds, rate); }
  }

  method SumAndDivide(previous: Samples, current: Samples, name: string, seconds: real) returns (rate: Option<real>)
    ensures rate == Rate(previous, current, name, seconds)
  {
    var keys := KeysOf(previous, current, name);
    if keys == {} || seconds <= 0.0 {
      return None;
    }
    if exists k :: k in keys && !Continues(previous, current, k) {
      return None;
    }
    var total := SumOf(map k | k in keys :: current[k].x - previous[k].x);
    return Some(total / seconds);
  }

  lemma NoGapExactly(previous: Samples, current: Samples, name: string)
    ensures NoGap(previous, current, name) <==>
      && KeysOf(previous, current, name) != {}
      && forall k :: k in KeysOf(previous, current, name) ==> Continues(previous, current, k)
  {
    var keys := KeysOf(previous, current, name);
    assert forall k: Series :: k in keys <==> k.name == name && (k in previous || k in current);
    if NoGap(previous, current, name) {
      var k :| k in current && k.name == name;
      assert k in keys;
    } else if k :| k in keys {
      assert k in previous || k in current;
    }
  }

  lemma RateExactly(previous: Samples, current: Samples, name: string, seconds: real, rate: Option<real>)
    requires rate == Rate(previous, current, name, seconds)
    ensures rate.Some? <==> seconds > 0.0 && NoGap(previous, current, name)
  {
    NoGapExactly(previous, current, name);
  }

  lemma RateMeans(previous: Samples, current: Samples, name: string, seconds: real, rate: Option<real>)
    requires rate == Rate(previous, current, name, seconds) && rate.Some? && NoGap(previous, current, name)
    ensures rate.value * seconds == Total(ValuesAt(current, name)) - Total(ValuesAt(previous, name))
  {
    RateExists(previous, current, name, seconds);
    IncreasesAre(previous, current, name);
  }

  lemma RateExists(previous: Samples, current: Samples, name: string, seconds: real)
    requires Rate(previous, current, name, seconds).Some?
    ensures seconds > 0.0 && KeysOf(previous, current, name) != {}
    ensures forall k :: k in KeysOf(previous, current, name) ==> Continues(previous, current, k)
    ensures Rate(previous, current, name, seconds).value * seconds == Total(Increases(previous, current, name))
    ensures Rate(previous, current, name, seconds).value >= 0.0
  {
    var total := Total(Increases(previous, current, name));
    TotalNonNegative(Increases(previous, current, name));
    Quotient(total, seconds);
  }

  lemma Quotient(total: real, seconds: real)
    requires seconds > 0.0 && total >= 0.0
    ensures total / seconds * seconds == total && total / seconds >= 0.0
  {
  }

  /** A series continues over joined intervals. */
  lemma SameSeries(a: Samples, b: Samples, c: Samples, name: string)
    requires forall k :: k in KeysOf(a, b, name) ==> Continues(a, b, k)
    requires forall k :: k in KeysOf(b, c, name) ==> Continues(b, c, k)
    ensures KeysOf(a, c, name) == KeysOf(a, b, name) == KeysOf(b, c, name)
    ensures forall k :: k in KeysOf(a, c, name) ==> Continues(a, c, k)
  {
    forall k: Series | k.name == name ensures (k in a <==> k in b) && (k in b <==> k in c) {
      if k in a || k in b { assert k in KeysOf(a, b, name); }
      if k in b || k in c { assert k in KeysOf(b, c, name); }
    }
  }

  lemma IncreasesAdd(a: Samples, b: Samples, c: Samples, name: string)
    requires forall k :: k in KeysOf(a, b, name) ==> Continues(a, b, k)
    requires forall k :: k in KeysOf(b, c, name) ==> Continues(b, c, k)
    ensures KeysOf(a, c, name) == KeysOf(a, b, name)
    ensures forall k :: k in KeysOf(a, c, name) ==> Continues(a, c, k)
    ensures Total(Increases(a, c, name)) == Total(Increases(a, b, name)) + Total(Increases(b, c, name))
  {
    SameSeries(a, b, c, name);
    TotalAdds(Increases(a, b, name), Increases(b, c, name), Increases(a, c, name));
  }

  /** Rates over adjacent intervals compose: the rate over the joined interval exists, and rate
      times duration adds up. */
  lemma RatesCompose(a: Samples, b: Samples, c: Samples, name: string, d: real, e: real, whole: real)
    requires Rate(a, b, name, d).Some? && Rate(b, c, name, e).Some? && whole == d + e
    ensures Rate(a, c, name, whole).Some? && Rate(a, c, name, whole).value >= 0.0
    ensures Rate(a, c, name, whole).value * whole == Rate(a, b, name, d).value * d + Rate(b, c, name, e).value * e
  {
    RateExists(a, b, name, d);
    RateExists(b, c, name, e);
    IncreasesAdd(a, b, c, name);
    RateExists(a, c, name, whole);
  }

  /** The rate of the interval exists, is not negative, and times the duration it is `counted`. */
  ghost predicate Accounts(a: Samples, b: Samples, name: string, seconds: real, counted: real) {
    var rate := Rate(a, b, name, seconds);
    rate.Some? && rate.value >= 0.0 && rate.value * seconds == counted
  }

  lemma AccountsJoin(a: Samples, b: Samples, c: Samples, name: string, d: real, e: real, x: real, y: real)
    requires Accounts(a, b, name, d, x) && Accounts(b, c, name, e, y)
    ensures Accounts(a, c, name, d + e, x + y)
  {
    RatesCompose(a, b, c, name, d, e, d + e);
  }

  /** The first `n` numbers together. */
  function SumTo(xs: seq<real>, n: nat): real
    requires n <= |xs|
  {
    if n == 0 then 0.0 else SumTo(xs, n - 1) + xs[n - 1]
  }

  /** Over any gap-free chain of scrapes the rate from first to last exists, is not negative, and
      accounts for exactly what the single intervals counted. */
  lemma {:induction false} ChainRate(scrapes: seq<Samples>, seconds: seq<real>, counted: seq<real>, name: string,
          n: nat)
    requires |scrapes| == |seconds| + 1 == |counted| + 1 && 1 <= n <= |seconds|
    requires forall i :: 0 <= i < |seconds| ==> Accounts(scrapes[i], scrapes[i + 1], name, seconds[i], counted[i])
    ensures Accounts(scrapes[0], scrapes[n], name, SumTo(seconds, n), SumTo(counted, n))
  {
    assert Accounts(scrapes[n - 1], scrapes[n], name, seconds[n - 1], counted[n - 1]);
    if n == 1 {
      assert SumTo(seconds, 0) == SumTo(counted, 0) == 0.0;
    } else {
      ChainRate(scrapes, seconds, counted, name, n - 1);
      AccountsJoin(scrapes[0], scrapes[n - 1], scrapes[n], name, SumTo(seconds, n - 1), seconds[n - 1],
                   SumTo(counted, n - 1), counted[n - 1]);
    }
  }

  // ----- What a longer interval hides -----

  /** The converse of composing fails: over a longer interval a reset hides if the counter has
      recovered by its end, whatever the start value, the drop and the recovery. */
  lemma ResetHidden(name: string, labels: Labels, x: real, drop: real, gain: real, d: real, e: real)
    returns (a: Samples, b: Samples, c: Samples)
    requires drop > 0.0 && gain >= 0.0 && d > 0.0 && e > 0.0
    ensures var k := Series(name, labels);
      a == map[k := Finite(x)] && b == map[k := Finite(x - drop)] && c == map[k := Finite(x + gain)]
    ensures Rate(a, b, name, d) == None && Rate(b, c, name, e).Some? && Rate(a, c, name, d + e).Some?
  {
    var k := Series(name, labels);
    a, b, c := map[k := Finite(x)], map[k := Finite(x - drop)], map[k := Finite(x + gain)];
    assert k in KeysOf(a, b, name) && k in KeysOf(b, c, name) && k in KeysOf(a, c, name);
  }

  /** The series is in every scrape, always finite, and never falls from one to the next. */
  ghost predicate Steady(scrapes: seq<Samples>, k: Series) {
    && (forall i :: 0 <= i < |scrapes| ==> k in scrapes[i] && scrapes[i][k].Finite?)
    && (forall i, j :: 0 <= i < j < |scrapes| ==> scrapes[i][k].x <= scrapes[j][k].x)
  }

  ghost predicate AllSteady(scrapes: seq<Samples>, name: string) {
    forall i, k :: 0 <= i < |scrapes| && k in scrapes[i] && k.name == name ==> Steady(scrapes, k)
  }

  /** There are series of the name, and all of them continue. */
  ghost predicate Gapless(a: Samples, b: Samples, name: string) {
    KeysOf(a, b, name) != {} && forall k :: k in KeysOf(a, b, name) ==> Continues(a, b, k)
  }

  lemma {:induction false} ChainContinues(scrapes: seq<Samples>, name: string, i: nat, j: nat)
    requires i < j < |scrapes| && forall p :: 0 <= p < |scrapes| - 1 ==> Gapless(scrapes[p], scrapes[p + 1], name)
    ensures Gapless(scrapes[i], scrapes[j], name)
  {
    assert Gapless(scrapes[j - 1], scrapes[j], name);
    if i < j - 1 {
      ChainContinues(scrapes, name, i, j - 1);
      SameSeries(scrapes[i], scrapes[j - 1], scrapes[j], name);
    }
  }

  lemma ChainSteady(scrapes: seq<Samples>, name: string, p: nat, k: Series)
    requires |scrapes| >= 2 && forall i :: 0 <= i < |scrapes| - 1 ==> Gapless(scrapes[i], scrapes[i + 1], name)
    requires p < |scrapes| && k in scrapes[p] && k.name == name
    ensures Steady(scrapes, k)
  {
    forall i | 0 <= i < |scrapes| ensures k in scrapes[i] && scrapes[i][k].Finite? {
      var lo, hi := if i < p then i else p, if i < p then p else i;
      if lo == hi { lo, hi := if i == 0 then 0 else i - 1, if i == 0 then 1 else i; }
      ChainContinues(scrapes, name, lo, hi);
      assert k in KeysOf(scrapes[lo], scrapes[hi], name);
    }
    forall i, j | 0 <= i < j < |scrapes| ensures scrapes[i][k].x <= scrapes[j][k].x {
      ChainContinues(scrapes, name, i, j);
      assert k in KeysOf(scrapes[i], scrapes[j], name);
    }
  }

  lemma SteadyGapless(scrapes: seq<Samples>, name: string, i: nat)
    requires AllSteady(scrapes, name) && i + 1 < |scrapes| && KeysOf(scrapes[0], scrapes[|scrapes| - 1], name) != {}
    ensures Gapless(scrapes[i], scrapes[i + 1], name)
  {
    var a, b := scrapes[i], scrapes[i + 1];
    var k :| k in KeysOf(scrapes[0], scrapes[|scrapes| - 1], name);
    assert Steady(scrapes, k);
    assert k in KeysOf(a, b, name);
    forall j | j in KeysOf(a, b, name) ensures Continues(a, b, j) {
      assert Steady(scrapes, j);
    }
  }

  lemma RateGapless(a: Samples, b: Samples, name: string, seconds: real)
    requires seconds > 0.0
    ensures Rate(a, b, name, seconds).Some? <==> Gapless(a, b, name)
  {
  }

  /** Interval `i` has a rate of its own. */
  ghost predicate PartHasRate(scrapes: seq<Samples>, seconds: seq<real>, name: string, i: nat)
    requires |scrapes| == |seconds| + 1 && i < |seconds|
  {
    Rate(scrapes[i], scrapes[i + 1], name, seconds[i]).Some?
  }

  /** Exactly what the rate over a long interval hides: all parts have a rate if and only if the whole
      has one and every series of the name is in all scrapes, finite and never falling. */
  lemma PartsExactly(scrapes: seq<Samples>, seconds: seq<real>, name: string, whole: real)
    requires |scrapes| == |seconds| + 1 >= 2 && whole > 0.0 && forall i :: 0 <= i < |seconds| ==> seconds[i] > 0.0
    ensures (forall i :: 0 <= i < |seconds| ==> PartHasRate(scrapes, seconds, name, i))
       <==> Rate(scrapes[0], scrapes[|seconds|], name, whole).Some? && AllSteady(scrapes, name)
  {
    forall i | 0 <= i < |seconds|
      ensures PartHasRate(scrapes, seconds, name, i) <==> Gapless(scrapes[i], scrapes[i + 1], name)
    {
      RateGapless(scrapes[i], scrapes[i + 1], name, seconds[i]);
    }
    RateGapless(scrapes[0], scrapes[|seconds|], name, whole);
    if forall i :: 0 <= i < |seconds| ==> Gapless(scrapes[i], scrapes[i + 1], name) {
      ChainContinues(scrapes, name, 0, |seconds|);
      forall i, k | 0 <= i < |scrapes| && k in scrapes[i] && k.name == name ensures Steady(scrapes, k) {
        ChainSteady(scrapes, name, i, k);
      }
    }
    if Gapless(scrapes[0], scrapes[|seconds|], name) && AllSteady(scrapes, name) {
      forall i | 0 <= i < |seconds| ensures Gapless(scrapes[i], scrapes[i + 1], name) {
        SteadyGapless(scrapes, name, i);
      }
    }
  }
}
