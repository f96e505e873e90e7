/**
 * The NOOB least-risk selector and its cruder damage estimate. Unlike the
 * MOMOS scan it scores every candidate, and it answers `None` when every
 * score is 0.
 */
module NoobSelector {
  import opened Game
  import opened Seqs
  import opened PathCost
  import MomosSelector

  /** `not any(damages)`: every score is 0. */
  predicate AllZero(rs: seq<real>)
  {
    forall i :: 0 <= i < |rs| ==> rs[i] == 0.0
  }

  /**
   * The choice `least_damage_spawn_location` makes: the option list back
   * unchanged when it is empty; `None` when every candidate scores 0;
   * otherwise the first candidate of least risk, with that risk.
   */
  function Choice(s: Snapshot, options: seq<Cell>): Selection
  {
    if options == [] then Unchanged(options)
    else
      var rs := Risks(s, options);
      if AllZero(rs) then NoPick
      else Pick(options[FirstIndex(rs, MinOf(rs))], MinOf(rs))
  }

  /**
   * `least_damage_spawn_location`: scores every candidate in list order, with
   * no early exit (`evaluated` counts the path computations), then applies
   * the all-zero test and `damages.index(min(damages))`.
   */
  method LeastDamage(s: Snapshot, options: seq<Cell>) returns (r: Selection, evaluated: nat)
    ensures r == Choice(s, options)
    ensures evaluated == |options|
  {
    if options == [] {
      return Unchanged(options), 0;
    }
    var damages: seq<real> := [];
    var i := 0;
    while i < |options|
      invariant 0 <= i <= |options|
      invariant damages == Risks(s, options[..i])
    {
      var path := s.pathFrom(options[i]);
      var damage := 0.0;
      if path.Some? && path.value != [] {
        damage := PathDamage(s.attackersAt, path.value);
      }
      assert options[..i + 1][..i] == options[..i];
      damages := damages + [damage];
      i := i + 1;
    }
    assert options[..i] == options;
    if AllZero(damages) {
      return NoPick, |options|;
    }
    var m := MinOf(damages);
    return Pick(options[FirstIndex(damages, m)], m), |options|;
  }

  /** For a non-empty list the answer is `None` exactly when every candidate's risk is 0. */
  lemma NoPickIffAllZero(s: Snapshot, options: seq<Cell>)
    requires options != []
    ensures Choice(s, options).NoPick? <==> forall j :: 0 <= j < |options| ==> Risk(s, options[j]) == 0.0
    ensures !Choice(s, options).Unchanged?
  {
  }

  /** No candidate with a path: every score is 0, so the answer is `None`. */
  lemma NoPathNoPick(s: Snapshot, options: seq<Cell>)
    requires options != []
    requires forall j :: 0 <= j < |options| ==> s.pathFrom(options[j]).None?
    ensures Choice(s, options) == NoPick
  {
    NoPickIffAllZero(s, options);
  }

  /**
   * A pick is a candidate of least risk, the first such in list order, and
   * some candidate's risk is not 0.
   */
  lemma PickIsFirstLeast(s: Snapshot, options: seq<Cell>)
    requires Choice(s, options).Pick?
    ensures exists k :: 0 <= k < |options|
              && Choice(s, options) == Pick(options[k], Risk(s, options[k]))
              && (forall j :: 0 <= j < |options| ==> Risk(s, options[k]) <= Risk(s, options[j]))
              && (forall j :: 0 <= j < k ==> Risk(s, options[k]) < Risk(s, options[j]))
    ensures exists j :: 0 <= j < |options| && Risk(s, options[j]) != 0.0
  {
    var rs := Risks(s, options);
    var m := MinOf(rs);
    var k := FirstIndex(rs, m);
    assert Choice(s, options) == Pick(options[k], Risk(s, options[k]));
    assert forall j :: 0 <= j < k ==> rs[j] != m && m <= rs[j];
    assert !AllZero(rs);
  }

  /**
   * The two variants agree whenever NOOB picks at all and no damage value is
   * negative: the first zero-risk candidate MOMOS stops at is then also the
   * first minimum NOOB returns.
   */
  lemma AgreesWithMomos(s: Snapshot, options: seq<Cell>)
    requires NonNegativeDamage(s)
    requires exists j :: 0 <= j < |options| && Risk(s, options[j]) != 0.0
    ensures Choice(s, options) == MomosSelector.Choice(s, options)
  {
    var rs := Risks(s, options);
    assert !AllZero(rs);
    if 0.0 in rs {
      var m := MinOf(rs);
      var w :| 0 <= w < |rs| && rs[w] == m;
      RiskNonNegative(s, options[w]);
      assert m == 0.0;
    }
  }

  // ---------------------------------------------------------------------
  // `damage_estimated_from_spawn_location`

  /** The estimate for one location: the attacker count along its path times the turret damage, 0 with no path. */
  function Estimate(s: Snapshot, turretDamage: real, c: Cell): real
  {
    match s.pathFrom(c)
    case None => 0.0
    case Some(p) => CountRisk(s.attackersAt, turretDamage, p)
  }

  /** `damage_estimated_from_spawn_location`: for each path cell add `len(get_attackers) * damage_i`. */
  method DamageEstimate(s: Snapshot, turretDamage: real, location: Cell) returns (damage: real)
    ensures damage == Estimate(s, turretDamage, location)
  {
    damage := 0.0;
    var path := s.pathFrom(location);
    if path.Some? && path.value != [] {
      var p := path.value;
      var i := 0;
      while i < |p|
        invariant 0 <= i <= |p|
        invariant damage == CountRisk(s.attackersAt, turretDamage, p[..i])
      {
        damage := damage + (|s.attackersAt(p[i])| as real) * turretDamage;
        assert p[..i + 1][..i] == p[..i];
        i := i + 1;
      }
      assert p[..i] == p;
    }
  }

  /** With a non-negative turret damage the estimate is never negative. */
  lemma {:induction false} CountRiskNonNegative(attackersAt: Cell -> seq<Attacker>, turretDamage: real, path: seq<Cell>)
    requires turretDamage >= 0.0
    ensures CountRisk(attackersAt, turretDamage, path) >= 0.0
  {
    if path != [] {
      CountRiskNonNegative(attackersAt, turretDamage, path[..|path| - 1]);
      var n := |attackersAt(path[|path| - 1])| as real;
      assert n * turretDamage >= 0.0;
    }
  }

  /**
   * The estimate and the selector's risk coincide when every attacker along
   * the path is a turret of the configured damage, and the estimate is
   * never negative for a non-negative turret damage.
   */
  lemma EstimateAgreesWithRisk(s: Snapshot, turretDamage: real, c: Cell)
    ensures s.pathFrom(c).None? ==> Estimate(s, turretDamage, c) == 0.0
    ensures turretDamage >= 0.0 ==> Estimate(s, turretDamage, c) >= 0.0
    ensures (s.pathFrom(c).Some?
             && forall d, i :: d in s.pathFrom(c).value && 0 <= i < |s.attackersAt(d)| ==>
                  s.attackersAt(d)[i] == Attacker(Turret, turretDamage))
            ==> Estimate(s, turretDamage, c) == Risk(s, c)
  {
    if s.pathFrom(c).Some? {
      var p := s.pathFrom(c).value;
      if turretDamage >= 0.0 {
        CountRiskNonNegative(s.attackersAt, turretDamage, p);
      }
      if forall d, i :: d in p && 0 <= i < |s.attackersAt(d)| ==> s.attackersAt(d)[i] == Attacker(Turret, turretDamage) {
        CountRiskMatchesPathRisk(s.attackersAt, turretDamage, p);
      }
    }
  }
}
