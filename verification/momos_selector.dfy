/**
 * The MOMOS least-risk location selector: a sequential scan that stops at the
 * first zero-risk candidate, and the reduction step of the parallel variant,
 * which scores every candidate and keeps the first minimum.
 */
module MomosSelector {
  import opened Game
  import opened Seqs
  import opened PathCost

  /**
   * The choice `least_damage_spawn_location` makes: the option list back
   * unchanged when it is empty; otherwise the first candidate of risk 0, or,
   * when there is none, the first candidate of least risk.
   */
  function Choice(s: Snapshot, options: seq<Cell>): Selection
  {
    if options == [] then Unchanged(options)
    else
      var rs := Risks(s, options);
      if 0.0 in rs then Pick(options[FirstIndex(rs, 0.0)], 0.0)
      else Pick(options[FirstIndex(rs, MinOf(rs))], MinOf(rs))
  }

  /** How many candidates the scan scores before it returns. */
  function Evaluated(s: Snapshot, options: seq<Cell>): nat
  {
    var rs := Risks(s, options);
    if 0.0 in rs then FirstIndex(rs, 0.0) + 1 else |options|
  }

  /**
   * `least_damage_spawn_location`: scores candidates in list order and returns
   * the first one whose risk is 0 at once, scoring no later candidate;
   * otherwise returns the first-occurring minimum. `evaluated` counts the
   * path computations made.
   */
  method LeastDamage(s: Snapshot, options: seq<Cell>) returns (r: Selection, evaluated: nat)
    ensures r == Choice(s, options)
    ensures evaluated == Evaluated(s, options)
    ensures options != [] ==> r.Pick? && r.loc in options
  {
    if options == [] {
      return Unchanged(options), 0;
    }
    var damages: seq<real> := [];
    var i := 0;
    while i < |options|
      invariant 0 <= i <= |options|
      invariant damages == Risks(s, options[..i])
      invariant 0.0 !in damages
    {
      var location := options[i];
      var path := s.pathFrom(location);
      var damage := 0.0;
      if path.Some? && path.value != [] {
        damage := PathDamage(s.attackersAt, path.value);
      }
      assert options[..i + 1][..i] == options[..i];
      damages := damages + [damage];
      if damage == 0.0 {
        ghost var rs := Risks(s, options);
        assert rs[..i + 1] == damages;
        FirstIndexUnique(rs, 0.0, i);
        return Pick(location, damage), i + 1;
      }
      i := i + 1;
    }
    assert options[..i] == options;
    var m := MinOf(damages);
    return Pick(options[FirstIndex(damages, m)], m), |options|;
  }

  /** A non-empty option list always yields a pick among the options. */
  lemma ChoicePicksOption(s: Snapshot, options: seq<Cell>)
    requires options != []
    ensures Choice(s, options).Pick? && Choice(s, options).loc in options
  {
  }

  /** A zero-risk candidate preceded only by risky ones is returned, after exactly that many evaluations. */
  lemma ChoiceFirstSafe(s: Snapshot, options: seq<Cell>, k: nat)
    requires k < |options| && Risk(s, options[k]) == 0.0
    requires forall j :: 0 <= j < k ==> Risk(s, options[j]) != 0.0
    ensures Choice(s, options) == Pick(options[k], 0.0)
    ensures Evaluated(s, options) == k + 1
  {
    var rs := Risks(s, options);
    assert rs[k] == 0.0;
    FirstIndexUnique(rs, 0.0, k);
  }

  /**
   * Without a zero-risk candidate every candidate is scored and the result is
   * a candidate of least risk, the first such in list order.
   */
  lemma ChoiceLeastRisk(s: Snapshot, options: seq<Cell>)
    requires options != []
    requires forall j :: 0 <= j < |options| ==> Risk(s, options[j]) != 0.0
    ensures Evaluated(s, options) == |options|
    ensures Choice(s, options).Pick?
    ensures exists k :: 0 <= k < |options|
              && Choice(s, options) == Pick(options[k], Risk(s, options[k]))
              && (forall j :: 0 <= j < |options| ==> Risk(s, options[k]) <= Risk(s, options[j]))
              && (forall j :: 0 <= j < k ==> Risk(s, options[k]) < Risk(s, options[j]))
  {
    var rs := Risks(s, options);
    assert 0.0 !in rs;
    var m := MinOf(rs);
    var k := FirstIndex(rs, m);
    assert Choice(s, options) == Pick(options[k], Risk(s, options[k]));
    assert forall j :: 0 <= j < k ==> rs[j] != m && m <= rs[j];
  }

  /**
   * When no turret hits for a negative amount, the early zero-risk return is
   * never worse than the full scan: the picked risk is at most every candidate's.
   */
  lemma ChoiceIsLeastWhenNonNegative(s: Snapshot, options: seq<Cell>)
    requires options != [] && NonNegativeDamage(s)
    ensures Choice(s, options).Pick?
    ensures forall j :: 0 <= j < |options| ==> Choice(s, options).risk <= Risk(s, options[j])
  {
    forall j | 0 <= j < |options|
      ensures Choice(s, options).risk <= Risk(s, options[j])
    {
      RiskNonNegative(s, options[j]);
    }
  }

  /** Scenario: `[[7,6],[8,5]]` where `[7,6]` meets one turret of damage 2 and `[8,5]` is safe. */
  lemma SafeSecondCandidateWins(s: Snapshot)
    requires Risk(s, Cell(7, 6)) == 2.0 && Risk(s, Cell(8, 5)) == 0.0
    ensures Choice(s, [Cell(7, 6), Cell(8, 5)]) == Pick(Cell(8, 5), 0.0)
    ensures Evaluated(s, [Cell(7, 6), Cell(8, 5)]) == 2
  {
    ChoiceFirstSafe(s, [Cell(7, 6), Cell(8, 5)], 1);
  }

  /** Scenario: `[[8,5],[7,6]]` where `[8,5]` is safe: one evaluation, whatever `[7,6]` scores. */
  lemma SafeFirstCandidateShortCircuits(s: Snapshot)
    requires Risk(s, Cell(8, 5)) == 0.0
    ensures Choice(s, [Cell(8, 5), Cell(7, 6)]) == Pick(Cell(8, 5), 0.0)
    ensures Evaluated(s, [Cell(8, 5), Cell(7, 6)]) == 1
  {
    ChoiceFirstSafe(s, [Cell(8, 5), Cell(7, 6)], 0);
  }

  // ---------------------------------------------------------------------
  // The parallel variant: `compute_damage` per location, then `min(results, key=score)`.

  /** The pair the parallel variant returns; `None` where `min` of an empty list raises. */
  function ParallelChoice(s: Snapshot, locations: seq<Cell>): Option<(Cell, real)>
  {
    if locations == [] then None
    else
      var rs := Risks(s, locations);
      var k := FirstIndex(rs, MinOf(rs));
      Some((locations[k], rs[k]))
  }

  /** `compute_damage`: a location paired with its risk. */
  method ComputeDamage(s: Snapshot, location: Cell) returns (pair: (Cell, real))
    ensures pair.0 == location && pair.1 == Risk(s, location)
  {
    var path := s.pathFrom(location);
    var damage := 0.0;
    if path.Some? {
      damage := PathDamage(s.attackersAt, path.value);
    }
    return (location, damage);
  }

  /**
   * `min(results, key=lambda x: x[1])` as a sequential fold: the first pair of
   * least score, and `None` for an empty list.
   */
  method ReduceMin(results: seq<(Cell, real)>) returns (best: Option<(Cell, real)>)
    ensures best.None? <==> results == []
    ensures best.Some? ==>
              exists k :: 0 <= k < |results| && best.value == results[k]
                && (forall j :: 0 <= j < |results| ==> results[k].1 <= results[j].1)
                && (forall j :: 0 <= j < k ==> results[k].1 < results[j].1)
  {
    if results == [] {
      return None;
    }
    var k := 0;
    var i := 1;
    while i < |results|
      invariant 0 <= k < i <= |results|
      invariant forall j :: 0 <= j < i ==> results[k].1 <= results[j].1
      invariant forall j :: 0 <= j < k ==> results[k].1 < results[j].1
    {
      if results[i].1 < results[k].1 {
        k := i;
      }
      i := i + 1;
    }
    return Some(results[k]);
  }

  /** `least_damage_spawn_location_parallel` with the worker fan-out run in order. */
  method LeastDamageParallel(s: Snapshot, locations: seq<Cell>) returns (best: Option<(Cell, real)>)
    ensures best == ParallelChoice(s, locations)
  {
    var results: seq<(Cell, real)> := [];
    var i := 0;
    while i < |locations|
      invariant 0 <= i <= |locations|
      invariant |results| == i
      invariant forall j :: 0 <= j < i ==> results[j] == (locations[j], Risk(s, locations[j]))
    {
      var pair := ComputeDamage(s, locations[i]);
      results := results + [pair];
      i := i + 1;
    }
    best := ReduceMin(results);
    if locations != [] {
      var rs := Risks(s, locations);
      assert forall j :: 0 <= j < |results| ==> results[j].1 == rs[j];
      var k :| 0 <= k < |results| && best.value == results[k]
                && (forall j :: 0 <= j < |results| ==> results[k].1 <= results[j].1)
                && (forall j :: 0 <= j < k ==> results[k].1 < results[j].1);
      var m := MinOf(rs);
      assert rs[k] == m by {
        var w :| 0 <= w < |rs| && rs[w] == m;
        assert rs[k] <= rs[w];
      }
      FirstIndexUnique(rs, m, k);
    }
  }

  /**
   * The parallel reduction returns the same pair as the sequential scan
   * whenever the short-circuit cannot matter: no candidate is risk-free, or no
   * damage value is negative (then the first zero is also the first minimum).
   */
  lemma ParallelMatchesSequential(s: Snapshot, locations: seq<Cell>)
    requires locations != []
    requires NonNegativeDamage(s) || forall j :: 0 <= j < |locations| ==> Risk(s, locations[j]) != 0.0
    ensures ParallelChoice(s, locations) == Some((Choice(s, locations).loc, Choice(s, locations).risk))
  {
    var rs := Risks(s, locations);
    if 0.0 in rs {
      var z := FirstIndex(rs, 0.0);
      var m := MinOf(rs);
      assert m == 0.0 by {
        RiskNonNegative(s, locations[FirstIndex(rs, m)]);
      }
    }
  }

  /** The parallel variant's score never exceeds the sequential scan's. */
  lemma ParallelNoWorse(s: Snapshot, locations: seq<Cell>)
    requires locations != []
    ensures ParallelChoice(s, locations).Some?
    ensures ParallelChoice(s, locations).value.1 <= Choice(s, locations).risk
  {
    var rs := Risks(s, locations);
    if 0.0 in rs {
      assert rs[FirstIndex(rs, 0.0)] == 0.0;
    }
  }
}
