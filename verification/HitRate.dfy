/** Cache-hit percentages from token counters: `hit_percentages` regroups the series of all workers
    by their labels without the mode. */
module HitRate {
  import opened Wrappers
  import opened Totals
  import opened Grouping
  import opened CounterRate

  const METRIC := "sglang:prefill_effective_tokens_total"

  const TAG := "mode"

  const DEVICE := "device_hit"

  const HOST := "host_hit"

  const STORAGE := "storage_hit"

  const INPUT := "input"

  const MODES := {DEVICE, HOST, STORAGE, INPUT}

  /** The values of one metric by label set. */
  function Values(samples: Samples, name: string): (vs: map<Labels, Value>)
    ensures forall l: Labels :: l in vs <==> Series(name, l) in samples
    ensures forall l: Labels :: l in vs ==> vs[l] == samples[Series(name, l)]
  {
    map s | s in samples && s.name == name :: s.labels := samples[s]
  }

  function Percent(used: real, capacity: real): Option<real> {
    if capacity > 0.0 then Some(100.0 * used / capacity) else None
  }

  // ----- Reference: sums over the series themselves -----

  /** A series with a known mode, finite in both scrapes, that did not decrease. */
  predicate Usable(was: map<Labels, Value>, now: map<Labels, Value>, key: Labels) {
    && key in was && key in now
    && TAG in key && key[TAG] in MODES
    && now[key].Finite? && was[key].Finite?
    && was[key].x <= now[key].x
  }

  ghost predicate AllUsable(was: map<Labels, Value>, now: map<Labels, Value>, keys: set<Labels>) {
    forall key :: key in keys ==> Usable(was, now, key)
  }

  /** Each worker that has a series has one for every mode. */
  ghost predicate Complete(keys: set<Labels>, modes: set<string>) {
    forall key, mode {:trigger HasTwin(keys, key, mode)} :: key in keys && mode in modes ==> HasTwin(keys, key, mode)
  }

  /** The series of the same worker with another mode is there, too. */
  predicate HasTwin(keys: set<Labels>, key: Labels, mode: string) {
    key[TAG := mode] in keys
  }

  ghost predicate Clean(was: map<Labels, Value>, now: map<Labels, Value>) {
    was.Keys != {} && was.Keys == now.Keys && AllUsable(was, now, now.Keys) && Complete(now.Keys, MODES)
  }

  /** What the series of a set counted between the scrapes. */
  ghost function Deltas(was: map<Labels, Value>, now: map<Labels, Value>, keys: set<Labels>): map<Labels, real>
    requires AllUsable(was, now, keys)
  {
    map key | key in keys :: assert Usable(was, now, key); now[key].x - was[key].x
  }

  ghost function OfMode(keys: set<Labels>, mode: string): set<Labels> {
    set key | key in keys && TAG in key && key[TAG] == mode
  }

  /** The tokens counted under one mode, over all series. */
  ghost function Tokens(was: map<Labels, Value>, now: map<Labels, Value>, mode: string): real
    requires AllUsable(was, now, now.Keys)
  {
    Total(Deltas(was, now, OfMode(now.Keys, mode)))
  }

  ghost function AllTokens(was: map<Labels, Value>, now: map<Labels, Value>): real
    requires AllUsable(was, now, now.Keys)
  {
    Total(Deltas(was, now, now.Keys))
  }

  function Three(device: real, host: real, input: real, all: real): seq<Option<real>> {
    [Percent(device, all), Percent(host, all), Percent(all - input, all)]
  }

  /** The three figures: device hits, host hits, and all but the plain input, against all tokens. */
  ghost function FiguresOf(was: map<Labels, Value>, now: map<Labels, Value>): seq<Option<real>> {
    if Clean(was, now)
    then Three(Tokens(was, now, DEVICE), Tokens(was, now, HOST), Tokens(was, now, INPUT), AllTokens(was, now))
    else [None, None, None]
  }

  ghost function Figures(before: Samples, after: Samples): seq<Option<real>> {
    FiguresOf(Values(before, METRIC), Values(after, METRIC))
  }

  ghost predicate AllFinite(vs: map<Labels, Value>, keys: set<Labels>) {
    forall key :: key in keys ==> key in vs && vs[key].Finite?
  }

  ghost function Reals(vs: map<Labels, Value>, keys: set<Labels>): map<Labels, real>
    requires AllFinite(vs, keys)
  {
    map key | key in keys :: vs[key].x
  }

  /** By how much the sum over a set of series rose between the scrapes. */
  ghost function Growth(was: map<Labels, Value>, now: map<Labels, Value>, keys: set<Labels>): real
    requires AllUsable(was, now, keys)
  {
    assert forall key :: key in keys ==> Usable(was, now, key);
    Total(Reals(now, keys)) - Total(Reals(was, keys))
  }

  lemma GrowthIs(was: map<Labels, Value>, now: map<Labels, Value>, keys: set<Labels>)
    requires AllUsable(was, now, keys)
    ensures Growth(was, now, keys) == Total(Deltas(was, now, keys))
  {
    assert forall key :: key in keys ==> Usable(was, now, key);
    TotalAdds(Reals(was, keys), Deltas(was, now, keys), Reals(now, keys));
  }

  /** What the figures say: the device hits, the host hits and the plain input are these shares of the
      growth of all series; there are none if a series is missing or unusable, or nothing was counted. */
  ghost predicate FiguresAre(figures: seq<Option<real>>, was: map<Labels, Value>, now: map<Labels, Value>) {
    if Clean(was, now) && Growth(was, now, now.Keys) > 0.0 then
      SharesAre(figures, Growth(was, now, OfMode(now.Keys, DEVICE)), Growth(was, now, OfMode(now.Keys, HOST)),
        Growth(was, now, OfMode(now.Keys, INPUT)), Growth(was, now, now.Keys))
    else
      figures == [None, None, None]
  }

  ghost predicate SharesAre(figures: seq<Option<real>>, device: real, host: real, input: real, all: real) {
    && |figures| == 3 && figures[0].Some? && figures[1].Some? && figures[2].Some?
    && figures[0].value * all == 100.0 * device
    && figures[1].value * all == 100.0 * host
    && (100.0 - figures[2].value) * all == 100.0 * input
  }

  lemma ThreeAre(device: real, host: real, input: real, all: real)
    requires all > 0.0
    ensures SharesAre(Three(device, host, input, all), device, host, input, all)
  {
  }

  lemma FiguresMean(was: map<Labels, Value>, now: map<Labels, Value>)
    ensures FiguresAre(FiguresOf(was, now), was, now)
  {
    if Clean(was, now) {
      GrowthIs(was, now, now.Keys);
      GrowthIs(was, now, OfMode(now.Keys, DEVICE));
      GrowthIs(was, now, OfMode(now.Keys, HOST));
      GrowthIs(was, now, OfMode(now.Keys, INPUT));
      var device, host, input := Tokens(was, now, DEVICE), Tokens(was, now, HOST), Tokens(was, now, INPUT);
      var all := AllTokens(was, now);
      if all > 0.0 { ThreeAre(device, host, input, all); }
    }
  }

  // ----- Regrouping by the labels without the mode -----

  function Split(key: Labels): (Labels, string)
    requires TAG in key
  {
    (key - {TAG}, key[TAG])
  }

  lemma SplitInjective(j: Labels, k: Labels)
    requires TAG in j && TAG in k && Split(j) == Split(k)
    ensures j == k
  {
    assert j == (j - {TAG})[TAG := j[TAG]] && k == (k - {TAG})[TAG := k[TAG]];
  }

  /** The same numbers by worker and mode, paired off with the series. */
  ghost predicate Cells(to: map<Labels, (Labels, string)>, deltas: map<Labels, real>, cells: map<(Labels, string),
          real>) {
    && Renames(to, deltas, cells)
    && (forall key :: key in to ==> TAG in key && to[key] == Split(key))
  }

  lemma CellsAdd(to: map<Labels, (Labels, string)>, deltas: map<Labels, real>, cells: map<(Labels, string), real>,
          key: Labels, x: real)
    requires Cells(to, deltas, cells) && TAG in key && key !in deltas
    ensures Cells(to[key := Split(key)], deltas[key := x], cells[Split(key) := x])
  {
    if Split(key) in cells {
      var j :| j in to && to[j] == Split(key);
      SplitInjective(j, key);
    }
    RenamesAdd(to, deltas, cells, key, Split(key), x);
  }

  /** Rows of cells are full exactly if the series are complete. */
  lemma FullIsComplete(to: map<Labels, (Labels, string)>, deltas: map<Labels, real>, cells: map<(Labels, string),
          real>, modes: set<string>)
    requires Cells(to, deltas, cells) && forall key :: key in deltas ==> key[TAG] in modes
    ensures FullRows(cells, modes) <==> Complete(deltas.Keys, modes)
  {
    if FullRows(cells, modes) {
      forall key, mode | key in deltas && mode in modes ensures HasTwin(deltas.Keys, key, mode) {
        TwinOf(to, deltas, cells, modes, key, mode);
      }
    }
    if Complete(deltas.Keys, modes) {
      forall w, m | (w, m) in cells ensures m in modes && forall k :: k in modes ==> (w, k) in cells {
        RowOf(to, deltas, cells, modes, w, m);
      }
    }
  }

  lemma TwinOf(to: map<Labels, (Labels, string)>, deltas: map<Labels, real>, cells: map<(Labels, string), real>,
          modes: set<string>, key: Labels, mode: string)
    requires Cells(to, deltas, cells) && FullRows(cells, modes) && key in deltas && mode in modes
    ensures HasTwin(deltas.Keys, key, mode)
  {
    assert to[key] == (key - {TAG}, key[TAG]);
    CellOf(to, deltas, cells, key, mode);
  }

  lemma RowOf(to: map<Labels, (Labels, string)>, deltas: map<Labels, real>, cells: map<(Labels, string), real>,
          modes: set<string>, w: Labels, m: string)
    requires Cells(to, deltas, cells) && (forall key :: key in deltas ==> key[TAG] in modes)
    requires Complete(deltas.Keys, modes) && (w, m) in cells
    ensures m in modes && forall k :: k in modes ==> (w, k) in cells
  {
    var key :| key in to && to[key] == (w, m);
    forall k | k in modes ensures (w, k) in cells {
      assert HasTwin(deltas.Keys, key, k);
      CellOf(to, deltas, cells, key, k);
    }
  }

  /** The cell beside a series' own, under another mode, is that of the series with that mode. */
  lemma CellOf(to: map<Labels, (Labels, string)>, deltas: map<Labels, real>, cells: map<(Labels, string), real>,
          key: Labels, mode: string)
    requires Cells(to, deltas, cells) && key in deltas
    ensures (key - {TAG}, mode) in cells <==> HasTwin(deltas.Keys, key, mode)
  {
    var other := key[TAG := mode];
    assert Split(other) == (key - {TAG}, mode) by { assert other - {TAG} == key - {TAG}; }
    if Split(other) in cells {
      var j :| j in to && to[j] == Split(other);
      SplitInjective(j, other);
    }
  }

  /** One column of cells is one mode of series. */
  lemma ColumnIsMode(to: map<Labels, (Labels, string)>, deltas: map<Labels, real>, cells: map<(Labels, string), real>,
                     part: map<Labels, real>, mode: string)
    requires Cells(to, deltas, cells) && part.Keys == OfMode(deltas.Keys, mode)
    requires forall key :: key in part ==> part[key] == deltas[key]
    ensures Total(part) == Total(Column(cells, mode))
  {
    var some := map key | key in part :: to[key];
    forall c | c in Column(cells, mode) ensures exists key :: key in some && some[key] == c {
      var key :| key in to && to[key] == c;
      assert some[key] == c;
    }
    TotalRenamed(some, part, Column(cells, mode));
  }

  lemma Distinct()
    ensures DEVICE != HOST && DEVICE != STORAGE && DEVICE != INPUT && HOST != STORAGE && HOST != INPUT
    ensures STORAGE != INPUT
  {
    assert |DEVICE| == 10 && |HOST| == 8 && |STORAGE| == 11 && |INPUT| == 5;
  }

  lemma DeltasAdd(was: map<Labels, Value>, now: map<Labels, Value>, seen: set<Labels>, key: Labels)
    requires AllUsable(was, now, seen) && Usable(was, now, key)
    ensures AllUsable(was, now, seen + {key})
    ensures Deltas(was, now, seen + {key}) == Deltas(was, now, seen)[key := now[key].x - was[key].x]
  {
  }

  lemma CellsStep(was: map<Labels, Value>, now: map<Labels, Value>, seen: set<Labels>, key: Labels,
                  to: map<Labels, (Labels, string)>, cells: map<(Labels, string), real>)
    requires AllUsable(was, now, seen) && key !in seen && Usable(was, now, key)
    requires Cells(to, Deltas(was, now, seen), cells)
    ensures AllUsable(was, now, seen + {key})
    ensures Cells(to[key := Split(key)], Deltas(was, now, seen + {key}), cells[Split(key) := now[key].x - was[key].x])
  {
    DeltasAdd(was, now, seen, key);
    CellsAdd(to, Deltas(was, now, seen), cells, key, now[key].x - was[key].x);
  }

  lemma SeriesAdd(workers: Workers<Labels, string>, to: map<Labels, (Labels, string)>, deltas: map<Labels, real>,
                  cells: map<(Labels, string), real>, key: Labels, delta: real)
    requires Groups(workers, cells) && Cells(to, deltas, cells) && TAG in key && key !in deltas
    ensures Groups(Store(workers, key - {TAG}, key[TAG], delta), cells[Split(key) := delta])
    ensures Cells(to[key := Split(key)], deltas[key := delta], cells[Split(key) := delta])
  {
    CellsAdd(to, deltas, cells, key, delta);
    GroupsAdd(workers, cells, key - {TAG}, key[TAG], delta);
  }

  /** `hit_percentages`: the loop over the series, in any order, that fills `workers`. */
  method FillWorkers(was: map<Labels, Value>, now: map<Labels, Value>)
    returns (ok: bool, workers: Workers<Labels, string>, ghost to: map<Labels, (Labels, string)>,
            ghost cells: map<(Labels, string), real>)
    requires was.Keys == now.Keys
    ensures ok <==> AllUsable(was, now, now.Keys)
    ensures ok ==> Filled(was, now, workers, to, cells)
  {
    workers, to, cells := map[], map[], map[];
    var rest := now.Keys;
    ghost var seen: set<Labels>, deltas: map<Labels, real> := {}, map[];
    while rest != {}
      invariant rest !! seen && rest + seen == now.Keys && AllUsable(was, now, seen)
      invariant deltas == Deltas(was, now, seen)
      invariant Groups(workers, cells) && Cells(to, deltas, cells)
    {
      var key :| key in rest;
      if !Usable(was, now, key) {
        return false, workers, to, cells;
      }
      var delta := now[key].x - was[key].x;
      DeltasAdd(was, now, seen, key);
      SeriesAdd(workers, to, deltas, cells, key, delta);
      workers := Store(workers, key - {TAG}, key[TAG], delta);
      to, deltas, cells := to[key := Split(key)], deltas[key := delta], cells[Split(key) := delta];
      rest, seen := rest - {key}, seen + {key};
    }
    assert seen == now.Keys;
    ok := true;
  }

  /** The workers hold the numbers of all series. */
  ghost predicate Filled(was: map<Labels, Value>, now: map<Labels, Value>, workers: Workers<Labels, string>,
                         to: map<Labels, (Labels, string)>, cells: map<(Labels, string), real>) {
    AllUsable(was, now, now.Keys) && Groups(workers, cells) && Cells(to, Deltas(was, now, now.Keys), cells)
  }

  /** The sum of one mode over the workers is its sum over the series. */
  method SumMode(ghost was: map<Labels, Value>, ghost now: map<Labels, Value>, workers: Workers<Labels, string>,
                 ghost to: map<Labels, (Labels, string)>, ghost cells: map<(Labels, string), real>,
                 mode: string, ghost modes: set<string>)
    returns (total: real)
    requires Filled(was, now, workers, to, cells) && AllFull(workers, modes) && mode in modes
    ensures total == Tokens(was, now, mode)
  {
    assert forall w :: w in workers ==> Has(workers, w, mode);
    total := SumOf(map w | w in workers :: workers[w][mode]);
    ColumnTotal(workers, cells, mode);
    ModeColumn(was, now, to, cells, mode);
  }

  lemma ModeColumn(was: map<Labels, Value>, now: map<Labels, Value>, to: map<Labels, (Labels, string)>,
          cells: map<(Labels, string), real>, mode: string)
    requires AllUsable(was, now, now.Keys) && Cells(to, Deltas(was, now, now.Keys), cells)
    ensures Total(Column(cells, mode)) == Tokens(was, now, mode)
  {
    ColumnIsMode(to, Deltas(was, now, now.Keys), cells, Deltas(was, now, OfMode(now.Keys, mode)), mode);
  }

  /** The sums over workers are the sums over the series. */
  lemma SumsAgree(was: map<Labels, Value>, now: map<Labels, Value>, to: map<Labels, (Labels, string)>,
          cells: map<(Labels, string), real>)
    requires AllUsable(was, now, now.Keys) && Cells(to, Deltas(was, now, now.Keys), cells)
    ensures Total(Column(cells, DEVICE)) == Tokens(was, now, DEVICE)
    ensures Total(Column(cells, HOST)) == Tokens(was, now, HOST)
    ensures Total(Column(cells, STORAGE)) == Tokens(was, now, STORAGE)
    ensures Total(Column(cells, INPUT)) == Tokens(was, now, INPUT)
    ensures AllTokens(was, now) ==
      Tokens(was, now, DEVICE) + Tokens(was, now, HOST) + Tokens(was, now, STORAGE) + Tokens(was, now, INPUT)
  {
    var deltas := Deltas(was, now, now.Keys);
    forall mode ensures Total(Column(cells, mode)) == Tokens(was, now, mode) {
      ModeColumn(was, now, to, cells, mode);
    }
    TotalRenamed(to, deltas, cells);
    Distinct();
    forall w, m | (w, m) in cells ensures m in {DEVICE, HOST, STORAGE, INPUT} {
      var key :| key in to && to[key] == (w, m);
      assert Usable(was, now, key);
    }
    FourColumns(cells, DEVICE, HOST, STORAGE, INPUT);
  }

  method HitPercentages(before: Samples, after: Samples) returns (figures: seq<Option<real>>)
    ensures figures == Figures(before, after)
    ensures FiguresAre(figures, Values(before, METRIC), Values(after, METRIC))
  {
    figures := Percentages(Values(before, METRIC), Values(after, METRIC));
    FiguresMean(Values(before, METRIC), Values(after, METRIC));
  }

  method Percentages(was: map<Labels, Value>, now: map<Labels, Value>) returns (figures: seq<Option<real>>)
    ensures figures == FiguresOf(was, now)
  {
    if was.Keys == {} || was.Keys != now.Keys {
      return [None, None, None];
    }
    var ok, workers, to, cells := FillWorkers(was, now);
    if !ok {
      return [None, None, None];
    }
    FullWorkers(was, now, workers, to, cells);
    if !AllFull(workers, MODES) {
      return [None, None, None];
    }
    var device, host, storage, input := SumFour(was, now, workers, to, cells, DEVICE, HOST, STORAGE, INPUT, MODES);
    TokensSplit(was, now);
    figures := Three(device, host, input, device + host + storage + input);
  }

  /** The sums per mode over the workers. */
  method SumFour(ghost was: map<Labels, Value>, ghost now: map<Labels, Value>, workers: Workers<Labels, string>,
                 ghost to: map<Labels, (Labels, string)>, ghost cells: map<(Labels, string), real>,
                 a: string, b: string, c: string, d: string, ghost modes: set<string>)
    returns (sumA: real, sumB: real, sumC: real, sumD: real)
    requires Filled(was, now, workers, to, cells) && AllFull(workers, modes)
    requires a in modes && b in modes && c in modes && d in modes
    ensures sumA == Tokens(was, now, a) && sumB == Tokens(was, now, b)
    ensures sumC == Tokens(was, now, c) && sumD == Tokens(was, now, d)
  {
    sumA := SumMode(was, now, workers, to, cells, a, modes);
    sumB := SumMode(was, now, workers, to, cells, b, modes);
    sumC := SumMode(was, now, workers, to, cells, c, modes);
    sumD := SumMode(was, now, workers, to, cells, d, modes);
  }

  /** The test on the workers is the completeness of the series. */
  lemma FullWorkers(was: map<Labels, Value>, now: map<Labels, Value>, workers: Workers<Labels, string>,
                    to: map<Labels, (Labels, string)>, cells: map<(Labels, string), real>)
    requires Filled(was, now, workers, to, cells)
    ensures AllFull(workers, MODES) <==> Complete(now.Keys, MODES)
  {
    var deltas := Deltas(was, now, now.Keys);
    forall key | key in deltas ensures key[TAG] in MODES { assert Usable(was, now, key); }
    FullGroups(workers, cells, MODES);
    assert deltas.Keys == now.Keys;
    FullIsComplete(to, deltas, cells, MODES);
  }

  /** Either there are no figures, or 0 <= L1, 0 <= L2 and L1 + L2 <= total <= 100. */
  lemma FiguresBounded(before: Samples, after: Samples)
    ensures var f := Figures(before, after);
      || f == [None, None, None]
      || (|f| == 3 && f[0].Some? && f[1].Some? && f[2].Some?
          && 0.0 <= f[0].value && 0.0 <= f[1].value && f[0].value + f[1].value <= f[2].value <= 100.0)
  {
    var was, now := Values(before, METRIC), Values(after, METRIC);
    if Clean(was, now) {
      TokensSplit(was, now);
      ThreeBounded(Tokens(was, now, DEVICE), Tokens(was, now, HOST), Tokens(was, now, STORAGE),
          Tokens(was, now, INPUT));
    }
  }

  lemma ThreeBounded(device: real, host: real, storage: real, input: real)
    requires device >= 0.0 && host >= 0.0 && storage >= 0.0 && input >= 0.0
    ensures var f := Three(device, host, input, device + host + storage + input);
      || f == [None, None, None]
      || (f[0].Some? && f[1].Some? && f[2].Some?
          && 0.0 <= f[0].value && 0.0 <= f[1].value && f[0].value + f[1].value <= f[2].value <= 100.0)
  {
    var all := device + host + storage + input;
    if all > 0.0 {
      Share(device, all);
      Share(host, all);
      Share(all - input, all);
      Share(storage, all);
      assert 100.0 * (all - input) / all == 100.0 * device / all + 100.0 * host / all + 100.0 * storage / all;
    }
  }

  lemma Share(part: real, all: real)
    requires 0.0 <= part <= all && all > 0.0
    ensures 0.0 <= 100.0 * part / all <= 100.0
  {
  }

  lemma CellsExist(was: map<Labels, Value>, now: map<Labels, Value>, keys: set<Labels>)
    returns (to: map<Labels, (Labels, string)>, cells: map<(Labels, string), real>)
    requires AllUsable(was, now, keys)
    ensures Cells(to, Deltas(was, now, keys), cells)
    decreases |keys|
  {
    if keys == {} {
      to, cells := map[], map[];
    } else {
      var key :| key in keys;
      var fewer := keys - {key};
      assert Usable(was, now, key);
      to, cells := CellsExist(was, now, fewer);
      CellsStep(was, now, fewer, key, to, cells);
      assert keys == fewer + {key};
      to, cells := to[key := Split(key)], cells[Split(key) := now[key].x - was[key].x];
    }
  }

  /** All tokens are those of the four modes, and none is negative. */
  lemma TokensSplit(was: map<Labels, Value>, now: map<Labels, Value>)
    requires AllUsable(was, now, now.Keys)
    ensures AllTokens(was, now) ==
      Tokens(was, now, DEVICE) + Tokens(was, now, HOST) + Tokens(was, now, STORAGE) + Tokens(was, now, INPUT)
    ensures forall mode :: Tokens(was, now, mode) >= 0.0
  {
    var to, cells := CellsExist(was, now, now.Keys);
    SumsAgree(was, now, to, cells);
    forall mode ensures Tokens(was, now, mode) >= 0.0 {
      var part := Deltas(was, now, OfMode(now.Keys, mode));
      forall key | key in part ensures part[key] >= 0.0 { assert Usable(was, now, key); }
      TotalNonNegative(part);
    }
  }
}
