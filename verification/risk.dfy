/**
 * Path cost estimation: the damage a mobile unit is expected to take while
 * walking a path, summed over the turrets able to hit each cell of it.
 * Both strategy variants share this sum; the NOOB variant also has a cruder
 * estimate that counts every attacker at the turret's damage.
 */
module PathCost {
  import opened Game

  /** What one attacker contributes: its `damage_i` when it is a turret, nothing otherwise. */
  function Hit(a: Attacker): real
  {
    if a.kind == Turret then a.damage else 0.0
  }

  /** Sum of `damage_i` over the turrets among `attackers`, accumulated front to back. */
  function TurretDamage(attackers: seq<Attacker>): real
  {
    if attackers == [] then 0.0
    else TurretDamage(attackers[..|attackers| - 1]) + Hit(attackers[|attackers| - 1])
  }

  /** The turret damage collected over every cell of `path`, front to back. */
  function PathRisk(attackersAt: Cell -> seq<Attacker>, path: seq<Cell>): real
  {
    if path == [] then 0.0
    else PathRisk(attackersAt, path[..|path| - 1]) + TurretDamage(attackersAt(path[|path| - 1]))
  }

  /** A candidate's risk: its path's turret damage, and 0 when the host finds no path. */
  function Risk(s: Snapshot, c: Cell): real
  {
    match s.pathFrom(c)
    case None => 0.0
    case Some(p) => PathRisk(s.attackersAt, p)
  }

  /** The risks of a candidate list, in list order. */
  function Risks(s: Snapshot, cs: seq<Cell>): (r: seq<real>)
    ensures |r| == |cs|
    ensures forall i :: 0 <= i < |cs| ==> r[i] == Risk(s, cs[i])
  {
    if cs == [] then [] else Risks(s, cs[..|cs| - 1]) + [Risk(s, cs[|cs| - 1])]
  }

  /** The turrets among `attackers`, in order. */
  function Turrets(attackers: seq<Attacker>): (r: seq<Attacker>)
  {
    if attackers == [] then []
    else
      var last := attackers[|attackers| - 1];
      Turrets(attackers[..|attackers| - 1]) + (if last.kind == Turret then [last] else [])
  }

  /** Every attacker of every cell hits for a non-negative amount. */
  ghost predicate NonNegativeDamage(s: Snapshot)
  {
    forall c: Cell, i: int :: 0 <= i < |s.attackersAt(c)| ==> s.attackersAt(c)[i].damage >= 0.0
  }

  /**
   * The NOOB estimate along a path: for each cell, the number of attackers of
   * any archetype times the configured turret damage.
   */
  function CountRisk(attackersAt: Cell -> seq<Attacker>, turretDamage: real, path: seq<Cell>): real
  {
    if path == [] then 0.0
    else CountRisk(attackersAt, turretDamage, path[..|path| - 1])
         + (|attackersAt(path[|path| - 1])| as real) * turretDamage
  }

  /** Only turrets count: dropping every other archetype leaves the sum unchanged. */
  lemma {:induction false} TurretDamageOnlyTurrets(attackers: seq<Attacker>)
    ensures TurretDamage(Turrets(attackers)) == TurretDamage(attackers)
  {
    if attackers != [] {
      var init, last := attackers[..|attackers| - 1], attackers[|attackers| - 1];
      TurretDamageOnlyTurrets(init);
      var tail := if last.kind == Turret then [last] else [];
      var r := Turrets(init) + tail;
      if last.kind == Turret {
        assert r[..|r| - 1] == Turrets(init);
      } else {
        assert r == Turrets(init);
      }
    }
  }

  /** Risk is additive along a path: a path's risk is the sum of its two halves' risks. */
  lemma {:induction false} PathRiskAppend(attackersAt: Cell -> seq<Attacker>, p: seq<Cell>, q: seq<Cell>)
    ensures PathRisk(attackersAt, p + q) == PathRisk(attackersAt, p) + PathRisk(attackersAt, q)
  {
    if q == [] {
      assert p + q == p;
    } else {
      var q' := q[..|q| - 1];
      assert (p + q)[..|p + q| - 1] == p + q';
      assert (p + q)[|p + q| - 1] == q[|q| - 1];
      PathRiskAppend(attackersAt, p, q');
    }
  }

  /** With non-negative damage values no path is risky below zero. */
  lemma {:induction false} PathRiskNonNegative(s: Snapshot, path: seq<Cell>)
    requires NonNegativeDamage(s)
    ensures PathRisk(s.attackersAt, path) >= 0.0
  {
    if path != [] {
      PathRiskNonNegative(s, path[..|path| - 1]);
      TurretDamageNonNegative(s, s.attackersAt(path[|path| - 1]), path[|path| - 1]);
    }
  }

  lemma {:induction false} TurretDamageNonNegative(s: Snapshot, attackers: seq<Attacker>, c: Cell)
    requires NonNegativeDamage(s) && attackers <= s.attackersAt(c)
    ensures TurretDamage(attackers) >= 0.0
  {
    if attackers != [] {
      var k := |attackers| - 1;
      assert attackers[k] == s.attackersAt(c)[k];
      TurretDamageNonNegative(s, attackers[..k], c);
    }
  }

  /** With non-negative damage values every candidate's risk is non-negative. */
  lemma RiskNonNegative(s: Snapshot, c: Cell)
    requires NonNegativeDamage(s)
    ensures Risk(s, c) >= 0.0
  {
    if s.pathFrom(c).Some? {
      PathRiskNonNegative(s, s.pathFrom(c).value);
    }
  }

  /**
   * The two estimators agree when every attacker along the path is a turret
   * dealing exactly the configured turret damage.
   */
  lemma {:induction false} CountRiskMatchesPathRisk(
    attackersAt: Cell -> seq<Attacker>, turretDamage: real, path: seq<Cell>)
    requires forall c, i :: c in path && 0 <= i < |attackersAt(c)| ==>
               attackersAt(c)[i] == Attacker(Turret, turretDamage)
    ensures CountRisk(attackersAt, turretDamage, path) == PathRisk(attackersAt, path)
  {
    if path != [] {
      var c := path[|path| - 1];
      CountRiskMatchesPathRisk(attackersAt, turretDamage, path[..|path| - 1]);
      UniformTurretDamage(attackersAt(c), turretDamage);
    }
  }

  lemma {:induction false} UniformTurretDamage(attackers: seq<Attacker>, d: real)
    requires forall i :: 0 <= i < |attackers| ==> attackers[i] == Attacker(Turret, d)
    ensures TurretDamage(attackers) == (|attackers| as real) * d
  {
    if attackers != [] {
      var n := |attackers|;
      UniformTurretDamage(attackers[..n - 1], d);
      assert ((n - 1) as real) * d + d == (n as real) * d;
    }
  }

  /**
   * The accumulator loops of `least_damage_spawn_location` and `compute_damage`:
   * for each path cell, for each attacker there, add `damage_i` when it is a turret.
   */
  method PathDamage(attackersAt: Cell -> seq<Attacker>, path: seq<Cell>) returns (damage: real)
    ensures damage == PathRisk(attackersAt, path)
  {
    damage := 0.0;
    var i := 0;
    while i < |path|
      invariant 0 <= i <= |path|
      invariant damage == PathRisk(attackersAt, path[..i])
    {
      var attackers := attackersAt(path[i]);
      var j := 0;
      while j < |attackers|
        invariant 0 <= j <= |attackers|
        invariant damage == PathRisk(attackersAt, path[..i]) + TurretDamage(attackers[..j])
      {
        if attackers[j].kind == Turret {
          damage := damage + attackers[j].damage;
        }
        assert attackers[..j + 1][..j] == attackers[..j];
        j := j + 1;
      }
      assert attackers[..j] == attackers;
      assert path[..i + 1][..i] == path[..i];
      i := i + 1;
    }
    assert path[..i] == path;
  }
}
