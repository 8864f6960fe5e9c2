/** Coordinate descent over the scoring weights and the recency half-life. The
    objective may fail, and a failure ends the tuning. */
module Tune {
  import opened Domain
  import opened ReadPath
  import opened ReadPathLaws

  /** The fitness of a configuration on the corpus, or a failed evaluation. */
  type Objective = Scoring -> Option<real>

  const WEIGHT_STEPS := 20
  const HALF_LIFE_GRID: seq<real> := [1.0, 3.0, 7.0, 14.0, 30.0, 60.0, 90.0, 180.0]
  const TOLERANCE := 0.000000001

  function WithWeight(c: Scoring, field: nat, w: real): Scoring
    requires field < 4
  {
    if field == 0 then c.(vectorWeight := w)
    else if field == 1 then c.(entityWeight := w)
    else if field == 2 then c.(recencyWeight := w)
    else c.(confidenceWeight := w)
  }

  function GridWeight(step: nat): real {
    step as real / WEIGHT_STEPS as real
  }

  /** Evaluated, and not better than the fitness by more than the tolerance. */
  predicate NotBetter(eval: Objective, c: Scoring, fitness: real) {
    eval(c).Some? && eval(c).value <= fitness + TOLERANCE
  }

  predicate WeightTried(eval: Objective, best: Scoring, fitness: real, field: nat, step: nat)
    requires field < 4
  {
    NotBetter(eval, WithWeight(best, field, GridWeight(step)), fitness)
  }

  predicate HalfLifeTried(eval: Objective, best: Scoring, fitness: real, k: nat)
    requires k < |HALF_LIFE_GRID|
  {
    NotBetter(eval, best.(halfLife := HALF_LIFE_GRID[k]), fitness)
  }

  ghost predicate FieldsTried(eval: Objective, best: Scoring, fitness: real, fields: nat) {
    forall field: nat, step: nat :: field < fields && field < 4 && step <= WEIGHT_STEPS ==>
      WeightTried(eval, best, fitness, field, step)
  }

  /** No change of one coordinate to a grid value beats it. */
  ghost predicate LocalOptimum(eval: Objective, best: Scoring, fitness: real) {
    && FieldsTried(eval, best, fitness, 4)
    && forall k: nat :: k < |HALF_LIFE_GRID| ==> HalfLifeTried(eval, best, fitness, k)
  }

  /** Every coordinate is the one tuning started from or a grid value. */
  ghost predicate OnGrid(start: Scoring, c: Scoring) {
    && (c.vectorWeight == start.vectorWeight || GridValue(c.vectorWeight))
    && (c.entityWeight == start.entityWeight || GridValue(c.entityWeight))
    && (c.recencyWeight == start.recencyWeight || GridValue(c.recencyWeight))
    && (c.confidenceWeight == start.confidenceWeight || GridValue(c.confidenceWeight))
    && (c.halfLife == start.halfLife || c.halfLife in HALF_LIFE_GRID)
  }

  ghost predicate GridValue(w: real) {
    exists step: nat :: step <= WEIGHT_STEPS && w == GridWeight(step)
  }

  // ---- One sweep over a coordinate's grid -----------------------------------

  /** What a sweep keeps: the point is evaluated, no worse than before, better by
      more than the tolerance when it moved, and unmoved otherwise. */
  ghost predicate Advanced(
    eval: Objective, start: Scoring, from: (Scoring, real), to: (Scoring, real), improved: bool)
  {
    && eval(to.0) == Some(to.1)
    && OnGrid(start, to.0)
    && (if improved then to.1 > from.1 + TOLERANCE else to == from)
  }

  method SweepWeight(eval: Objective, ghost start: Scoring, field: nat, best0: Scoring, fit0: real)
    returns (ok: bool, best: Scoring, fit: real, improved: bool)
    requires field < 4 && eval(best0) == Some(fit0) && OnGrid(start, best0)
    ensures !ok ==> exists c :: eval(c).None?
    ensures ok ==> Advanced(eval, start, (best0, fit0), (best, fit), improved)
    ensures ok && !improved ==> forall step: nat :: step <= WEIGHT_STEPS ==> WeightTried(eval, best0, fit0, field, step)
  {
    ok, best, fit, improved := true, best0, fit0, false;
    for step := 0 to WEIGHT_STEPS + 1
      invariant Advanced(eval, start, (best0, fit0), (best, fit), improved)
      invariant ok
      invariant !improved ==> forall s: nat :: s < step ==> WeightTried(eval, best0, fit0, field, s)
    {
      var cand := WithWeight(best, field, GridWeight(step));
      var f := eval(cand);
      if f.None? {
        ok := false;
        return;
      }
      assert GridValue(GridWeight(step));
      if f.value > fit + TOLERANCE {
        best, fit, improved := cand, f.value, true;
      }
    }
  }

  method SweepHalfLife(eval: Objective, ghost start: Scoring, best0: Scoring, fit0: real)
    returns (ok: bool, best: Scoring, fit: real, improved: bool)
    requires eval(best0) == Some(fit0) && OnGrid(start, best0)
    ensures !ok ==> exists c :: eval(c).None?
    ensures ok ==> Advanced(eval, start, (best0, fit0), (best, fit), improved)
    ensures ok && !improved ==> forall k: nat :: k < |HALF_LIFE_GRID| ==> HalfLifeTried(eval, best0, fit0, k)
  {
    ok, best, fit, improved := true, best0, fit0, false;
    for k := 0 to |HALF_LIFE_GRID|
      invariant Advanced(eval, start, (best0, fit0), (best, fit), improved)
      invariant ok
      invariant !improved ==> forall j: nat :: j < k ==> HalfLifeTried(eval, best0, fit0, j)
    {
      var cand := best.(halfLife := HALF_LIFE_GRID[k]);
      var f := eval(cand);
      if f.None? {
        ok := false;
        return;
      }
      if f.value > fit + TOLERANCE {
        best, fit, improved := cand, f.value, true;
      }
    }
  }

  /** One pass over all five coordinates; one that improves nothing has checked
      every grid change. */
  method Pass(eval: Objective, ghost start: Scoring, best0: Scoring, fit0: real)
    returns (ok: bool, best: Scoring, fit: real, improved: bool)
    requires eval(best0) == Some(fit0) && OnGrid(start, best0)
    ensures !ok ==> exists c :: eval(c).None?
    ensures ok ==> Advanced(eval, start, (best0, fit0), (best, fit), improved)
    ensures ok && !improved ==> LocalOptimum(eval, best, fit)
  {
    ok, best, fit, improved := true, best0, fit0, false;
    for field := 0 to 4
      invariant ok
      invariant Advanced(eval, start, (best0, fit0), (best, fit), improved)
      invariant !improved ==> FieldsTried(eval, best0, fit0, field)
    {
      var moved: bool;
      ok, best, fit, moved := SweepWeight(eval, start, field, best, fit);
      if !ok {
        return;
      }
      improved := improved || moved;
    }
    var moved: bool;
    ok, best, fit, moved := SweepHalfLife(eval, start, best, fit);
    improved := improved || moved;
  }

  // ---- Normalising ----------------------------------------------------------

  function WeightTotal(c: Scoring): real {
    c.vectorWeight + c.entityWeight + c.recencyWeight + c.confidenceWeight
  }

  function Normalized(c: Scoring): Scoring {
    var sum := WeightTotal(c);
    if sum > 0.0 then
      Scoring(c.vectorWeight / sum, c.entityWeight / sum, c.recencyWeight / sum, c.confidenceWeight / sum, c.halfLife)
    else c
  }

  /** Normalising scales all weights by one positive factor. */
  lemma NormalizedIsScaled(c: Scoring)
    requires WeightTotal(c) > 0.0
    ensures 1.0 / WeightTotal(c) > 0.0
    ensures Normalized(c) == Scale(c, 1.0 / WeightTotal(c))
    ensures WeightTotal(Normalized(c)) == 1.0
  {}

  ghost predicate ScaleInvariant(eval: Objective) {
    forall c, factor :: factor > 0.0 ==> eval(Scale(c, factor)) == eval(c)
  }

  /** The objective does not look at the configuration. */
  ghost predicate Constant(eval: Objective) {
    forall c, c' :: eval(c) == eval(c')
  }

  // ---- Tuning ---------------------------------------------------------------

  datatype TuneResult = TuneResult(
    start: Scoring, best: Scoring, startFitness: real, bestFitness: real, startScore: real, bestScore: real)

  /** Fails only when an evaluation does. Otherwise the best fitness is the
      objective at the point before normalising, which every pass raised by more
      than the tolerance until one improved nothing; normalising keeps a scale
      invariant objective where it was. Under a constant objective nothing moves
      and the first pass is the last. */
  method Run(eval: Objective, start: Scoring, passes: nat)
    returns (r: Option<TuneResult>, ghost best: Scoring, ghost converged: bool, ghost rounds: nat)
    ensures r.None? ==> exists c :: eval(c).None?
    ensures r.Some? ==>
              && r.value.start == start && eval(start) == Some(r.value.startFitness) == Some(r.value.startScore)
              && r.value.best == Normalized(best)
              && eval(best) == Some(r.value.bestFitness)
              && OnGrid(start, best)
              && r.value.bestFitness >= r.value.startFitness
    ensures r.Some? && converged ==> LocalOptimum(eval, best, r.value.bestFitness)
    ensures r.Some? && !converged ==> r.value.bestFitness >= r.value.startFitness + passes as real * TOLERANCE
    ensures r.Some? ==> eval(r.value.best) == Some(r.value.bestScore)
    ensures r.Some? && ScaleInvariant(eval) ==> r.value.bestScore == r.value.bestFitness
    ensures r.Some? && Constant(eval) ==>
              && best == start && r.value.bestFitness == r.value.startFitness == r.value.bestScore
              && rounds == if passes == 0 then 0 else 1
    ensures rounds <= passes && (r.Some? && rounds < passes ==> converged)
  {
    best, converged, rounds := start, false, 0;
    var startFitness := eval(start);
    if startFitness.None? {
      return None, start, false, 0;
    }
    var point, fit := start, startFitness.value;
    var pass := 0;
    var improved := true;
    while pass < passes && improved
      invariant pass <= passes
      invariant eval(point) == Some(fit) && OnGrid(start, point)
      invariant fit >= startFitness.value
      invariant if improved then fit >= startFitness.value + pass as real * TOLERANCE
                else LocalOptimum(eval, point, fit)
      invariant Constant(eval) ==> point == start && fit == startFitness.value && pass == if improved then 0 else 1
      decreases passes - pass
    {
      var ok: bool;
      ok, point, fit, improved := Pass(eval, start, point, fit);
      if !ok {
        return None, start, false, pass;
      }
      pass := pass + 1;
    }
    best, converged, rounds := point, !improved, pass;
    var normalized := Normalized(point);
    if WeightTotal(point) > 0.0 {
      NormalizedIsScaled(point);
    }
    var startScore, bestScore := eval(start), eval(normalized);
    if startScore.None? || bestScore.None? {
      return None, best, converged, rounds;
    }
    r := Some(TuneResult(start, normalized, startFitness.value, fit, startScore.value, bestScore.value));
  }

  /** What a local optimum means: no weight set to a multiple of a twentieth up to
      one, and no half-life of 1, 3, 7, 14, 30, 60, 90 or 180 days, gains more than
      a billionth. */
  lemma LocalOptimumEffect(eval: Objective, best: Scoring, fitness: real, step: nat, days: real)
    requires LocalOptimum(eval, best, fitness) && step <= 20
    requires days in [1.0, 3.0, 7.0, 14.0, 30.0, 60.0, 90.0, 180.0]
    ensures var w := step as real / 20.0;
            forall c :: c in [best.(vectorWeight := w), best.(entityWeight := w), best.(recencyWeight := w),
                              best.(confidenceWeight := w), best.(halfLife := days)] ==>
              eval(c).Some? && eval(c).value <= fitness + 0.000000001
  {
    assert GridWeight(step) == step as real / 20.0;
    assert WeightTried(eval, best, fitness, 0, step) && WeightTried(eval, best, fitness, 1, step);
    assert WeightTried(eval, best, fitness, 2, step) && WeightTried(eval, best, fitness, 3, step);
    assert HALF_LIFE_GRID == [1.0, 3.0, 7.0, 14.0, 30.0, 60.0, 90.0, 180.0];
    var k :| 0 <= k < |HALF_LIFE_GRID| && HALF_LIFE_GRID[k] == days;
    assert HalfLifeTried(eval, best, fitness, k);
  }
}
