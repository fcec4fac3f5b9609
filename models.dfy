/** Result consolidation and resume (ccd/models/__init__.py): packing the
    per-band fits of one segment into a change-model record, and reloading a
    previous run's segments with the trailing unconfirmed "end fits" trimmed.

    Python's `float()` / `int()` conversions and `copy.deepcopy` are the
    identity on these value types.
 */
module Models {

  /** The parts of a fitted regression model that are read: `coef_` and `intercept_`. */
  datatype LinearModel = LinearModel(coef: seq<real>, intercept: real)

  /** FittedModel namedtuple: the model with its residuals and rmse. */
  datatype FittedModel = FittedModel(fittedModel: LinearModel, residual: seq<real>, rmse: real)

  /** One band's entry of a change model. */
  datatype SpectralModel = SpectralModel(rmse: real, coefficients: seq<real>, intercept: real, magnitude: real)

  /** The seven bands of a change model, in their fixed order. */
  datatype Band = Blue | Green | Red | Nir | Swir1 | Swir2 | Thermal
  {
    /** Position of the band in the fitted-model and magnitude sequences. */
    function Index(): (ix: nat)
      ensures ix < 7
    {
      match this
      case Blue => 0
      case Green => 1
      case Red => 2
      case Nir => 3
      case Swir1 => 4
      case Swir2 => 5
      case Thermal => 6
    }
  }

  datatype ChangeModel = ChangeModel(
    startDay: int, endDay: int, breakDay: int, observationCount: int,
    changeProbability: real, curveQa: int,
    blue: SpectralModel, green: SpectralModel, red: SpectralModel, nir: SpectralModel,
    swir1: SpectralModel, swir2: SpectralModel, thermal: SpectralModel)
  {
    function Spectral(b: Band): (s: SpectralModel)
    {
      match b
      case Blue => blue
      case Green => green
      case Red => red
      case Nir => nir
      case Swir1 => swir1
      case Swir2 => swir2
      case Thermal => thermal
    }
  }

  /** The previous results handed to results_fromprev; only `change_models` is read. */
  datatype PreviousResults = PreviousResults(changeModels: seq<ChangeModel>)

  /** `s` carries the rmse, coefficients and intercept of `model`, and `magnitude`. */
  predicate Packs(s: SpectralModel, model: FittedModel, magnitude: real)
  {
    && s.rmse == model.rmse
    && s.coefficients == model.fittedModel.coef
    && s.intercept == model.fittedModel.intercept
    && s.magnitude == magnitude
  }

  /** results_to_changemodel: one spectral record per fitted model, the first
      seven assigned to the bands in order, plus the six segment scalars. */
  method ResultsToChangeModel(fittedModels: seq<FittedModel>, startDay: int, endDay: int, breakDay: int,
                              magnitudes: seq<real>, observationCount: int, changeProbability: real,
                              curveQa: int)
    returns (cm: ChangeModel)
    requires |fittedModels| >= 7 && |magnitudes| >= |fittedModels|
    ensures cm.startDay == startDay && cm.endDay == endDay && cm.breakDay == breakDay
    ensures cm.observationCount == observationCount && cm.changeProbability == changeProbability
    ensures cm.curveQa == curveQa
    ensures forall b: Band :: Packs(cm.Spectral(b), fittedModels[b.Index()], magnitudes[b.Index()])
  {
    var spectralModels: seq<SpectralModel> := [];
    for ix := 0 to |fittedModels|
      invariant |spectralModels| == ix
      invariant forall j :: 0 <= j < ix ==> Packs(spectralModels[j], fittedModels[j], magnitudes[j])
    {
      var model := fittedModels[ix];
      var spectral := SpectralModel(model.rmse, model.fittedModel.coef, model.fittedModel.intercept, magnitudes[ix]);
      spectralModels := spectralModels + [spectral];
    }
    cm := ChangeModel(startDay, endDay, breakDay, observationCount, changeProbability, curveQa,
                      spectralModels[0], spectralModels[1], spectralModels[2], spectralModels[3],
                      spectralModels[4], spectralModels[5], spectralModels[6]);
  }

  // ---------------------------------------------------------------------------
  // Sorting by start day (Python's stable `sorted(..., key=start_day)`)

  predicate SortedByStart(s: seq<ChangeModel>)
  {
    forall i, j :: 0 <= i < j < |s| ==> s[i].startDay <= s[j].startDay
  }

  /** Every segment starts no later than `day`. */
  predicate StartsBy(s: seq<ChangeModel>, day: int)
  {
    forall i :: 0 <= i < |s| ==> s[i].startDay <= day
  }

  /** Insert `m` after every element whose start day is not later than its own. */
  function InsertByStart(sorted: seq<ChangeModel>, m: ChangeModel): (r: seq<ChangeModel>)
    ensures |r| == |sorted| + 1
    ensures multiset(r) == multiset(sorted) + multiset{m}
  {
    if |sorted| == 0 then [m]
    else
      var last := sorted[|sorted| - 1];
      if last.startDay <= m.startDay then sorted + [m]
      else
        var front := sorted[..|sorted| - 1];
        assert sorted == front + [last];
        InsertByStart(front, m) + [last]
  }

  lemma {:induction false} InsertByStartBounded(sorted: seq<ChangeModel>, m: ChangeModel, day: int)
    requires StartsBy(sorted, day) && m.startDay <= day
    ensures StartsBy(InsertByStart(sorted, m), day)
  {
    if |sorted| > 0 && sorted[|sorted| - 1].startDay > m.startDay {
      InsertByStartBounded(sorted[..|sorted| - 1], m, day);
    }
  }

  /** Inserting into a sorted sequence keeps it sorted. */
  lemma {:induction false} InsertByStartSorted(sorted: seq<ChangeModel>, m: ChangeModel)
    requires SortedByStart(sorted)
    ensures SortedByStart(InsertByStart(sorted, m))
  {
    if |sorted| > 0 {
      var last := sorted[|sorted| - 1];
      var front := sorted[..|sorted| - 1];
      if last.startDay > m.startDay {
        InsertByStartSorted(front, m);
        InsertByStartBounded(front, m, last.startDay);
        var r := InsertByStart(front, m);
        assert InsertByStart(sorted, m) == r + [last];
      }
    }
  }

  /** The segments sorted by start day, keeping the input order among equal start days. */
  function SortByStart(s: seq<ChangeModel>): (r: seq<ChangeModel>)
    ensures |r| == |s|
    ensures multiset(r) == multiset(s)
    ensures SortedByStart(r)
  {
    if |s| == 0 then []
    else
      assert s == s[..|s| - 1] + [s[|s| - 1]];
      InsertByStartSorted(SortByStart(s[..|s| - 1]), s[|s| - 1]);
      InsertByStart(SortByStart(s[..|s| - 1]), s[|s| - 1])
  }

  /** Sorting neither adds nor loses segments. */
  lemma SortByStartMembers(s: seq<ChangeModel>)
    ensures forall m :: m in SortByStart(s) <==> m in s
  {
    forall m
      ensures m in SortByStart(s) <==> m in s
    {
      assert m in SortByStart(s) <==> m in multiset(SortByStart(s));
      assert m in s <==> m in multiset(s);
    }
  }

  /** The segments that start on `day`, in their order. */
  function WithStart(s: seq<ChangeModel>, day: int): (r: seq<ChangeModel>)
  {
    if |s| == 0 then []
    else WithStart(s[..|s| - 1], day) + (if s[|s| - 1].startDay == day then [s[|s| - 1]] else [])
  }

  lemma {:induction false} InsertByStartStable(sorted: seq<ChangeModel>, m: ChangeModel, day: int)
    requires SortedByStart(sorted)
    ensures WithStart(InsertByStart(sorted, m), day) == WithStart(sorted, day) + (if m.startDay == day then [m] else [])
  {
    if |sorted| == 0 {
      assert [m][..0] == [];
    } else {
      var last := sorted[|sorted| - 1];
      var front := sorted[..|sorted| - 1];
      if last.startDay <= m.startDay {
        assert (sorted + [m])[..|sorted|] == sorted;
      } else {
        var r := InsertByStart(front, m) + [last];
        assert r[..|r| - 1] == InsertByStart(front, m);
        InsertByStartStable(front, m, day);
      }
    }
  }

  /** Sorting is stable: the segments of any one start day keep their relative order. */
  lemma {:induction false} SortByStartStable(s: seq<ChangeModel>, day: int)
    ensures WithStart(SortByStart(s), day) == WithStart(s, day)
  {
    if |s| > 0 {
      SortByStartStable(s[..|s| - 1], day);
      InsertByStartStable(SortByStart(s[..|s| - 1]), s[|s| - 1], day);
    }
  }

  // ---------------------------------------------------------------------------
  // Resume

  /** `kept` is `sorted` without its maximal trailing run of change probability 0:
      a prefix, everything dropped has probability 0, and the last kept segment does not. */
  predicate TrimsEndFits(sorted: seq<ChangeModel>, kept: seq<ChangeModel>)
  {
    && |kept| <= |sorted|
    && kept == sorted[..|kept|]
    && (forall j :: |kept| <= j < |sorted| ==> sorted[j].changeProbability == 0.0)
    && (|kept| > 0 ==> kept[|kept| - 1].changeProbability != 0.0)
  }

  /** Only one prefix removes exactly the maximal trailing run of end fits. */
  lemma TrimsEndFitsUnique(sorted: seq<ChangeModel>, a: seq<ChangeModel>, b: seq<ChangeModel>)
    requires TrimsEndFits(sorted, a) && TrimsEndFits(sorted, b)
    ensures a == b
  {
  }

  /** Reference definition: peel end fits off the back one at a time. */
  function DropEndFits(s: seq<ChangeModel>): (kept: seq<ChangeModel>)
  {
    if |s| == 0 then []
    else if s[|s| - 1].changeProbability == 0.0 then DropEndFits(s[..|s| - 1])
    else s
  }

  /** The reference definition removes exactly the maximal trailing run of end fits,
      so (by TrimsEndFitsUnique) it agrees with results_fromprev. */
  lemma {:induction false} DropEndFitsTrims(s: seq<ChangeModel>)
    ensures TrimsEndFits(s, DropEndFits(s))
  {
    if |s| > 0 {
      if s[|s| - 1].changeProbability == 0.0 {
        var front := s[..|s| - 1];
        DropEndFitsTrims(front);
        var kept := DropEndFits(front);
        assert front[..|kept|] == s[..|kept|];
      } else {
        assert s[..|s|] == s;
      }
    }
  }

  /** The two boundary cases: a confirmed last segment keeps everything, and a
      run of end fits only keeps nothing. */
  lemma TrimsEndFitsCases(prev: seq<ChangeModel>, kept: seq<ChangeModel>)
    requires TrimsEndFits(SortByStart(prev), kept)
    ensures var sorted := SortByStart(prev);
            |sorted| > 0 && sorted[|sorted| - 1].changeProbability != 0.0 ==> kept == sorted
    ensures (forall m :: m in prev ==> m.changeProbability == 0.0) ==> kept == []
    ensures SortedByStart(kept)
  {
    var sorted := SortByStart(prev);
    SortByStartMembers(prev);
    if |kept| > 0 {
      assert kept[|kept| - 1] in sorted;
    }
  }

  /** results_fromprev: sort the previous segments by start day and drop the
      trailing segments whose change probability is 0. The returned segments
      are copies; with value types the copy is the value itself. */
  method ResultsFromPrev(prev: PreviousResults) returns (models: seq<ChangeModel>)
    ensures TrimsEndFits(SortByStart(prev.changeModels), models)
    ensures SortedByStart(models)
  {
    var prevModels := SortByStart(prev.changeModels);
    var n := |prevModels|;
    var idx := 0;
    // idx counts segments from the end, as enumerate(prev_models[::-1]) does
    while idx < n
      invariant 0 <= idx <= n
      invariant forall j :: n - idx <= j < n ==> prevModels[j].changeProbability == 0.0
    {
      var model := prevModels[n - 1 - idx];
      if model.changeProbability == 0.0 {
        idx := idx + 1;
        continue;
      } else if idx == 0 {
        // prev_models[:-0] would be empty, hence the separate branch
        assert prevModels[..n] == prevModels;
        return prevModels;
      } else {
        return prevModels[..n - idx];
      }
    }
    return [];
  }
}
