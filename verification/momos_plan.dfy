/**
 * What the MOMOS reinforcement planner and its callers attempt, as functions
 * of the host and of the attempts issued so far this turn. The class methods
 * in MomosStrategy issue these attempts one by one; the lemmas here state the
 * planner's rules: neighbour derivation, exclusion of the own egress path,
 * neighbour-list order, and stopping at the first failed budget check.
 */
module MomosPlan {
  import opened Game
  import opened Seqs

  /** Column shift of `reinforce_location`: columns 3..13 move right by 2, other columns below 25 move left by 2. */
  function ShiftX(i: int): int
  {
    if 2 < i < 14 then i + 2 else if i < 25 then i - 2 else i
  }

  /** Row clamp of `reinforce_location`: rows below 5 go to 5, rows 5..9 move up by 2. */
  function ShiftY(j: int): (r: int)
    ensures r >= 5
    ensures j >= 10 ==> r == j
  {
    if j < 5 then 5 else if j < 10 then j + 2 else j
  }

  /**
   * The neighbour list of `reinforce_location`, in priority order: above the
   * shifted point, beside it, below it inside the middle columns 9..17, and
   * the shifted point itself last.
   */
  function Neighbours(loc: Cell): seq<Cell>
  {
    var i, j := ShiftX(loc.x), ShiftY(loc.y);
    var side := if i > 13 then Cell(i - 2, j) else Cell(i + 2, j);
    [Cell(i, j + 2), side] + (if 9 <= i <= 17 then [Cell(i, j - 1)] else []) + [Cell(i, j)]
  }

  /**
   * Three or four distinct neighbours, all at row 4 or above: the shifted
   * point last, the cell two rows above it first, the cell two columns
   * toward the middle second, and the cell below it exactly in columns 9..17.
   */
  lemma NeighboursShape(loc: Cell)
    ensures var ns := Neighbours(loc);
            var i, j := ShiftX(loc.x), ShiftY(loc.y);
            && 3 <= |ns| <= 4
            && ns[|ns| - 1] == Cell(i, j)
            && ns[0] == Cell(i, j + 2)
            && ns[1] == Cell(if i > 13 then i - 2 else i + 2, j)
            && (|ns| == 4 <==> 9 <= i <= 17)
            && (|ns| == 4 ==> ns[2] == Cell(i, j - 1))
            && (forall a, b :: 0 <= a < b < |ns| ==> ns[a] != ns[b])
            && (forall k :: 0 <= k < |ns| ==> ns[k].y >= 4)
  {
  }

  /** Near the left edge the column shift leaves the board: columns 0 and 1 map to -2 and -1. */
  lemma ShiftLeavesBoardOnlyAtLeftEdge(i: int)
    requires 0 <= i <= 27
    ensures ShiftX(i) < 0 <==> i <= 1
    ensures 0 <= i <= 1 ==> ShiftX(i) == i - 2
    ensures ShiftX(i) <= 27
  {
  }

  /** A single turret at a single cell, the only kind of attempt reinforcement makes. */
  predicate TurretAttempt(a: Action)
  {
    a.Spawn? && a.kind == Turret && a.num == 1 && |a.at| == 1
  }

  /**
   * The fill loop of `reinforce_location`: for each neighbour in order, stop
   * when the MP reading is below the turret's MP cost, skip a neighbour on
   * `path`, and otherwise attempt one turret there.
   */
  function FillAttempts(h: Host, t: seq<Action>, neigh: seq<Cell>, path: seq<Cell>): seq<Action>
    decreases |neigh|
  {
    if neigh == [] || !Affordable(h, t) then []
    else if neigh[0] in path then FillAttempts(h, t, neigh[1..], path)
    else
      var a := Spawn(Turret, [neigh[0]], 1);
      [a] + FillAttempts(h, t + [a], neigh[1..], path)
  }

  /** The fill makes at most one attempt per neighbour, each a single turret on a neighbour off the path. */
  lemma {:induction false} FillPlacesOffPathTurrets(h: Host, t: seq<Action>, neigh: seq<Cell>, path: seq<Cell>)
    ensures |FillAttempts(h, t, neigh, path)| <= |neigh|
    ensures forall a :: a in FillAttempts(h, t, neigh, path) ==> TurretAttempt(a) && a.at[0] in neigh && a.at[0] !in path
    decreases |neigh|
  {
    if neigh != [] && Affordable(h, t) {
      if neigh[0] in path {
        FillPlacesOffPathTurrets(h, t, neigh[1..], path);
      } else {
        FillPlacesOffPathTurrets(h, t + [Spawn(Turret, [neigh[0]], 1)], neigh[1..], path);
      }
    }
  }

  /** How many neighbours the fill loop gets through before its budget check fails. */
  function Considered(h: Host, t: seq<Action>, neigh: seq<Cell>, path: seq<Cell>): (k: nat)
    ensures k <= |neigh|
    decreases |neigh|
  {
    if neigh == [] || !Affordable(h, t) then 0
    else if neigh[0] in path then 1 + Considered(h, t, neigh[1..], path)
    else 1 + Considered(h, t + [Spawn(Turret, [neigh[0]], 1)], neigh[1..], path)
  }

  /** The cells of `cells` not on `path`, in order. */
  function OffPath(cells: seq<Cell>, path: seq<Cell>): seq<Cell>
  {
    if cells == [] then []
    else (if cells[0] in path then [] else [cells[0]]) + OffPath(cells[1..], path)
  }

  /** One single-turret attempt per cell, in order. */
  function TurretSpawns(cells: seq<Cell>): seq<Action>
  {
    if cells == [] then [] else [Spawn(Turret, [cells[0]], 1)] + TurretSpawns(cells[1..])
  }

  /**
   * The fill is a prefix walk: it attempts exactly the neighbours off the
   * path among the first `k` it considers, in list order, and when it stops
   * short of the end the budget check made after its last attempt failed.
   */
  lemma {:induction false} FillIsBudgetedPrefix(h: Host, t: seq<Action>, neigh: seq<Cell>, path: seq<Cell>)
    ensures var k := Considered(h, t, neigh, path);
            && FillAttempts(h, t, neigh, path) == TurretSpawns(OffPath(neigh[..k], path))
            && (k < |neigh| ==> !Affordable(h, t + FillAttempts(h, t, neigh, path)))
    decreases |neigh|
  {
    var k := Considered(h, t, neigh, path);
    if neigh == [] || !Affordable(h, t) {
      assert neigh[..0] == [];
      assert t + [] == t;
    } else {
      var n, rest := neigh[0], neigh[1..];
      var head := if n in path then [] else [n];
      var t' := t + TurretSpawns(head);
      FillIsBudgetedPrefix(h, t', rest, path);
      OffPathStep(neigh, path, k);
      TurretSpawnsAppend(head, OffPath(rest[..k - 1], path));
      if n in path {
        assert t' == t;
      } else {
        assert TurretSpawns(head) == [Spawn(Turret, [n], 1)];
        assert FillAttempts(h, t, neigh, path) == TurretSpawns(head) + FillAttempts(h, t', rest, path);
      }
      assert t + FillAttempts(h, t, neigh, path) == t' + FillAttempts(h, t', rest, path);
    }
  }

  /** Every neighbour the fill considers passed its budget check, made after the attempts before it. */
  lemma {:induction false} FillChecksPassed(h: Host, t: seq<Action>, neigh: seq<Cell>, path: seq<Cell>, j: nat)
    requires j < Considered(h, t, neigh, path)
    ensures Affordable(h, t + TurretSpawns(OffPath(neigh[..j], path)))
    decreases |neigh|
  {
    if j == 0 {
      assert t + TurretSpawns(OffPath(neigh[..0], path)) == t;
    } else {
      var n, rest := neigh[0], neigh[1..];
      var head := if n in path then [] else [n];
      var t' := t + TurretSpawns(head);
      if n in path {
        assert t' == t;
      } else {
        assert TurretSpawns(head) == [Spawn(Turret, [n], 1)];
      }
      FillChecksPassed(h, t', rest, path, j - 1);
      OffPathStep(neigh, path, j);
      TurretSpawnsAppend(head, OffPath(rest[..j - 1], path));
      assert t + TurretSpawns(OffPath(neigh[..j], path))
          == t' + TurretSpawns(OffPath(rest[..j - 1], path));
    }
  }

  lemma {:induction false} TurretSpawnsAppend(a: seq<Cell>, b: seq<Cell>)
    ensures TurretSpawns(a + b) == TurretSpawns(a) + TurretSpawns(b)
  {
    if a == [] {
      assert a + b == b;
    } else {
      assert (a + b)[1..] == a[1..] + b;
      TurretSpawnsAppend(a[1..], b);
    }
  }

  lemma OffPathStep(neigh: seq<Cell>, path: seq<Cell>, j: nat)
    requires 1 <= j <= |neigh|
    ensures OffPath(neigh[..j], path)
         == (if neigh[0] in path then [] else [neigh[0]]) + OffPath(neigh[1..][..j - 1], path)
  {
    assert neigh[..j][0] == neigh[0];
    assert neigh[..j][1..] == neigh[1..][..j - 1];
  }

  /**
   * `reinforce_location`: nothing when the host finds no path (or an empty
   * one) from the last spawn location; otherwise the fill over the
   * neighbours, against that path as computed before the first attempt.
   */
  function ReinforceAttempts(h: Host, t: seq<Action>, last: Cell, loc: Cell): seq<Action>
  {
    var path := h.board(t).pathFrom(last);
    if path.Some? && path.value != [] then FillAttempts(h, t, Neighbours(loc), path.value) else []
  }

  /**
   * Reinforcement makes at most four attempts, each a single turret on a
   * neighbour of the location, and never on the path from the last spawn
   * location; with no path it attempts nothing.
   */
  lemma ReinforceShape(h: Host, t: seq<Action>, last: Cell, loc: Cell)
    ensures var r := ReinforceAttempts(h, t, last, loc);
            && |r| <= 4
            && (r != [] ==> h.board(t).pathFrom(last).Some?)
            && forall a :: a in r ==>
                 && TurretAttempt(a) && a.at[0] in Neighbours(loc)
                 && a.at[0] !in h.board(t).pathFrom(last).value
  {
    var path := h.board(t).pathFrom(last);
    NeighboursShape(loc);
    if path.Some? && path.value != [] {
      FillPlacesOffPathTurrets(h, t, Neighbours(loc), path.value);
    }
  }

  /** What a gated walk does for each item it reaches: reinforce around it, or one `layer1` entry. */
  datatype Job = Reinforcing(last: Cell) | Layering(last: Cell, removeAfter: bool)

  function JobAttempts(h: Host, job: Job, t: seq<Action>, c: Cell): seq<Action>
  {
    match job
    case Reinforcing(last) => ReinforceAttempts(h, t, last, c)
    case Layering(last, removeAfter) => LayerEntryAttempts(h, t, last, c, removeAfter)
  }

  /**
   * The loop shape `build_reactive_defense` and both `layer1` loops share:
   * for each item in order, stop when the budget check fails, otherwise run
   * the job on the item against the attempts issued so far.
   */
  function GatedWalk(h: Host, t: seq<Action>, items: seq<Cell>, job: Job): seq<Action>
    decreases |items|
  {
    if items == [] || !Affordable(h, t) then []
    else
      var e := JobAttempts(h, job, t, items[0]);
      e + GatedWalk(h, t + e, items[1..], job)
  }

  /** One more item of a gated walk, when the budget check passes. */
  lemma WalkStep(h: Host, t: seq<Action>, items: seq<Cell>, job: Job)
    requires items != [] && Affordable(h, t)
    ensures GatedWalk(h, t, items, job)
         == JobAttempts(h, job, t, items[0]) + GatedWalk(h, t + JobAttempts(h, job, t, items[0]), items[1..], job)
  {
  }

  /** The end of a gated walk: no item left, or the budget check failed. */
  lemma WalkHalt(h: Host, t: seq<Action>, items: seq<Cell>, job: Job)
    requires items == [] || !Affordable(h, t)
    ensures GatedWalk(h, t, items, job) == []
  {
  }

  /** How many items a gated walk runs its step on before its budget check fails. */
  function WalkReached(h: Host, t: seq<Action>, items: seq<Cell>, job: Job): (k: nat)
    ensures k <= |items|
    decreases |items|
  {
    if items == [] || !Affordable(h, t) then 0
    else 1 + WalkReached(h, t + JobAttempts(h, job, t, items[0]), items[1..], job)
  }

  /**
   * A gated walk that stops short of the end of its list does so because the
   * budget check after its last attempt failed: no item is skipped while
   * the budget lasts.
   */
  lemma {:induction false} WalkStopsOnlyWhenBroke(h: Host, t: seq<Action>, items: seq<Cell>, job: Job)
    requires WalkReached(h, t, items, job) < |items|
    ensures !Affordable(h, t + GatedWalk(h, t, items, job))
    decreases |items|
  {
    if Affordable(h, t) {
      var e := JobAttempts(h, job, t, items[0]);
      var rest := GatedWalk(h, t + e, items[1..], job);
      WalkStopsOnlyWhenBroke(h, t + e, items[1..], job);
      assert t + (e + rest) == (t + e) + rest;
    } else {
      assert t + [] == t;
    }
  }

  /** Every item a gated walk reaches gets the attempt its step always makes for it. */
  lemma {:induction false} WalkVisitsReached(h: Host, t: seq<Action>, items: seq<Cell>,
                                             job: Job, mark: Cell -> Action, i: nat)
    requires forall t', c :: mark(c) in JobAttempts(h, job, t', c)
    requires i < WalkReached(h, t, items, job)
    ensures mark(items[i]) in GatedWalk(h, t, items, job)
    decreases |items|
  {
    var e := JobAttempts(h, job, t, items[0]);
    assert GatedWalk(h, t, items, job) == e + GatedWalk(h, t + e, items[1..], job);
    if i > 0 {
      WalkVisitsReached(h, t + e, items[1..], job, mark, i - 1);
      assert items[1..][i - 1] == items[i];
    }
  }

  /** A property every step's attempts have for the items of the list holds for the whole walk. */
  lemma {:induction false} WalkKeeps(h: Host, t: seq<Action>, items: seq<Cell>,
                                     job: Job, P: Action -> bool)
    requires forall t', c, a :: c in items && a in JobAttempts(h, job, t', c) ==> P(a)
    ensures forall a :: a in GatedWalk(h, t, items, job) ==> P(a)
    decreases |items|
  {
    if items != [] && Affordable(h, t) {
      WalkKeeps(h, t + JobAttempts(h, job, t, items[0]), items[1..], job, P);
    }
  }

  /** A walk whose step makes at most `bound` attempts makes at most `bound` per item. */
  lemma {:induction false} WalkLength(h: Host, t: seq<Action>, items: seq<Cell>,
                                      job: Job, bound: nat)
    requires forall t', c :: |JobAttempts(h, job, t', c)| <= bound
    ensures |GatedWalk(h, t, items, job)| <= bound * |items|
    decreases |items|
  {
    if items != [] && Affordable(h, t) {
      var e := JobAttempts(h, job, t, items[0]);
      WalkLength(h, t + e, items[1..], job, bound);
      assert |GatedWalk(h, t, items, job)| == |e| + |GatedWalk(h, t + e, items[1..], job)|;
      MulSucc(bound, |items[1..]|);
    }
  }

  lemma MulSucc(b: nat, n: nat)
    ensures b * (n + 1) == b * n + b
  {
  }

  /** `build_reactive_defense`: a gated walk over the breach locations in the order given, reinforcing around each. */
  function ReactiveAttempts(h: Host, t: seq<Action>, last: Cell, locs: seq<Cell>): seq<Action>
  {
    GatedWalk(h, t, locs, Reinforcing(last))
  }

  /** Reactive defence only places single turrets, at most four per breach location. */
  lemma ReactivePlacesTurrets(h: Host, t: seq<Action>, last: Cell, locs: seq<Cell>)
    ensures |ReactiveAttempts(h, t, last, locs)| <= 4 * |locs|
    ensures forall a :: a in ReactiveAttempts(h, t, last, locs) ==> TurretAttempt(a)
  {
    var job := Reinforcing(last);
    forall t': seq<Action>, c: Cell
      ensures |JobAttempts(h, job, t', c)| <= 4 && forall a :: a in JobAttempts(h, job, t', c) ==> TurretAttempt(a)
    {
      ReinforceShape(h, t', last, c);
    }
    WalkLength(h, t, locs, job, 4);
    WalkKeeps(h, t, locs, job, TurretAttempt);
  }

  /**
   * The breach list is walked newest first: with budget left, the first
   * reinforcement is around the most recent breach, and the rest of the walk
   * is the newest-first walk of the older breaches.
   */
  lemma NewestBreachFirst(h: Host, t: seq<Action>, last: Cell, breaches: seq<Cell>)
    requires breaches != [] && Affordable(h, t)
    ensures var n := |breaches| - 1;
            var first := ReinforceAttempts(h, t, last, breaches[n]);
            ReactiveAttempts(h, t, last, Reverse(breaches))
              == first + ReactiveAttempts(h, t + first, last, Reverse(breaches[..n]))
  {
    var n := |breaches| - 1;
    var job := Reinforcing(last);
    var rev := Reverse(breaches);
    assert rev[1..] == Reverse(breaches[..n]);
    var first := JobAttempts(h, job, t, rev[0]);
    assert GatedWalk(h, t, rev, job) == first + GatedWalk(h, t + first, rev[1..], job);
  }

  /** `attempt_spwan_remove`: spawn, and remove again at once when the host placed the unit. */
  function SpawnRemoveAttempts(h: Host, t: seq<Action>, unit: UnitKind, c: Cell): seq<Action>
  {
    var a := Spawn(unit, [c], 1);
    if h.placed(t, a) > 0 then [a, Remove([c])] else [a]
  }

  /** The turrets of `layer1`'s first list, in priority order. */
  const LAYER_OUTER: seq<Cell> := [Cell(1, 13), Cell(0, 13), Cell(2, 12), Cell(3, 11), Cell(4, 10)]
  /** The turrets of `layer1`'s second list, each spawned and removed again. */
  const LAYER_INNER: seq<Cell> := [Cell(13, 12), Cell(22, 12), Cell(23, 12), Cell(14, 12), Cell(3, 12)]

  /** A removal of one cell of `cells`. */
  predicate RemovalOf(a: Action, cells: seq<Cell>)
  {
    a.Remove? && |a.at| == 1 && a.at[0] in cells
  }

  /**
   * What one entry of a `layer1` list attempts: a reinforcement when the
   * cell is empty after turn 0, then its turret, removed again at once in the
   * spawn-and-remove list when it was placed.
   */
  function LayerEntryAttempts(h: Host, t: seq<Action>, last: Cell, c: Cell, removeAfter: bool): seq<Action>
  {
    var re := if h.turn > 0 && !h.board(t).occupied(c) then ReinforceAttempts(h, t, last, c) else [];
    re + (if removeAfter then SpawnRemoveAttempts(h, t + re, Turret, c) else [Spawn(Turret, [c], 1)])
  }

  /** An entry always attempts its own turret, and removes nothing but its own cell. */
  lemma LayerEntryShape(h: Host, t: seq<Action>, last: Cell, c: Cell, removeAfter: bool)
    ensures Spawn(Turret, [c], 1) in LayerEntryAttempts(h, t, last, c, removeAfter)
    ensures forall a :: a in LayerEntryAttempts(h, t, last, c, removeAfter) ==>
              TurretAttempt(a) || (removeAfter && a == Remove([c]))
  {
    var re := if h.turn > 0 && !h.board(t).occupied(c) then ReinforceAttempts(h, t, last, c) else [];
    var sp := if removeAfter then SpawnRemoveAttempts(h, t + re, Turret, c) else [Spawn(Turret, [c], 1)];
    assert sp[0] == Spawn(Turret, [c], 1);
    ReinforceShape(h, t, last, c);
  }

  /** One `layer1` loop: a gated walk over its list. */
  function LayerAttempts(h: Host, t: seq<Action>, last: Cell, cells: seq<Cell>, removeAfter: bool): seq<Action>
  {
    GatedWalk(h, t, cells, Layering(last, removeAfter))
  }

  /**
   * A `layer1` loop is budget-gated and ordered: every entry it reaches gets
   * its turret attempt, and it stops short of the end of its list only when
   * the budget check after its last attempt failed.
   */
  lemma LayerIsBudgetedPrefix(h: Host, t: seq<Action>, last: Cell, cells: seq<Cell>, removeAfter: bool)
    ensures var job := Layering(last, removeAfter);
            var r := LayerAttempts(h, t, last, cells, removeAfter);
            && (forall i :: 0 <= i < WalkReached(h, t, cells, job) ==> Spawn(Turret, [cells[i]], 1) in r)
            && (WalkReached(h, t, cells, job) < |cells| ==> !Affordable(h, t + r))
  {
    var job := Layering(last, removeAfter);
    var mark := (c: Cell) => Spawn(Turret, [c], 1);
    forall t': seq<Action>, c: Cell
      ensures mark(c) in JobAttempts(h, job, t', c)
    {
      LayerEntryShape(h, t', last, c, removeAfter);
    }
    forall i | 0 <= i < WalkReached(h, t, cells, job)
      ensures Spawn(Turret, [cells[i]], 1) in LayerAttempts(h, t, last, cells, removeAfter)
    {
      WalkVisitsReached(h, t, cells, job, mark, i);
    }
    if WalkReached(h, t, cells, job) < |cells| {
      WalkStopsOnlyWhenBroke(h, t, cells, job);
    }
  }

  /**
   * A `layer1` loop places only single turrets, and removes only cells of its
   * own list, and only in the spawn-and-remove list.
   */
  lemma LayerPlacesTurrets(h: Host, t: seq<Action>, last: Cell, cells: seq<Cell>, removeAfter: bool)
    ensures forall a :: a in LayerAttempts(h, t, last, cells, removeAfter) ==>
              TurretAttempt(a) || (removeAfter && RemovalOf(a, cells))
  {
    var job := Layering(last, removeAfter);
    forall t': seq<Action>, c: Cell, a | c in cells && a in JobAttempts(h, job, t', c)
      ensures TurretAttempt(a) || (removeAfter && RemovalOf(a, cells))
    {
      LayerEntryShape(h, t', last, c, removeAfter);
    }
    WalkKeeps(h, t, cells, job, (a: Action) => TurretAttempt(a) || (removeAfter && RemovalOf(a, cells)));
  }

  /** `layer1`: the first list, then the second list with spawn-and-remove. */
  function Layer1Attempts(h: Host, t: seq<Action>, last: Cell): seq<Action>
  {
    var outer := LayerAttempts(h, t, last, LAYER_OUTER, false);
    outer + LayerAttempts(h, t + outer, last, LAYER_INNER, true)
  }

  /** `layer1` places single turrets, and removes nothing but cells of its second list. */
  lemma Layer1Shape(h: Host, t: seq<Action>, last: Cell)
    ensures forall a :: a in Layer1Attempts(h, t, last) ==> TurretAttempt(a) || RemovalOf(a, LAYER_INNER)
  {
    var outer := LayerAttempts(h, t, last, LAYER_OUTER, false);
    LayerPlacesTurrets(h, t, last, LAYER_OUTER, false);
    LayerPlacesTurrets(h, t + outer, last, LAYER_INNER, true);
  }
}
