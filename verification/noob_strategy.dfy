/**
 * The NOOB strategy: a fixed turret layer with neighbour reinforcement, a
 * reactive reinforcement per recorded breach, a demolisher lane choice on
 * turn 2 and a scout burst on a fixed cadence. `Turn` says what one turn
 * attempts, or `None` when the turn raises before it is submitted; the
 * `NoobAlgo` methods issue those attempts through the host.
 */
module NoobStrategy {
  import opened Game
  import opened Seqs
  import opened PathCost
  import opened Breach
  import opened NoobSelector

  /** The scout spawn candidates of `send_scouts` and `find_location`, in list order. */
  const SCOUT_OPTIONS: seq<Cell> :=
    [Cell(3, 10), Cell(4, 9), Cell(5, 8), Cell(6, 7), Cell(7, 6), Cell(8, 5), Cell(9, 4), Cell(10, 3),
     Cell(11, 2), Cell(12, 1), Cell(13, 0), Cell(14, 0), Cell(15, 1), Cell(16, 2), Cell(17, 3),
     Cell(18, 4), Cell(19, 5), Cell(20, 6), Cell(21, 7), Cell(22, 8), Cell(23, 9), Cell(24, 10)]

  /** The edge cells `reinforce_location` never builds on. */
  const ILLEGAL: seq<Cell> := [Cell(0, 13), Cell(1, 13), Cell(26, 13), Cell(27, 13)]

  /** The turret cells of `layer1`, in order. */
  const LAYER: seq<Cell> := [Cell(13, 13), Cell(4, 13), Cell(5, 13), Cell(22, 13), Cell(23, 13), Cell(14, 13)]

  /** The two demolisher lanes of `left_right`, left first. */
  const LANES: seq<Cell> := [Cell(2, 11), Cell(25, 11)]

  /** The opponent cells `left_right` inspects on the left: x in 0..7, rows 14, 15, 16. */
  const LEFT_WATCH: seq<Cell> := seq(24, k requires 0 <= k < 24 => Cell(k % 8, 14 + k / 8))

  /** The same on the right: x in 20..27, rows 14, 15, 16. */
  const RIGHT_WATCH: seq<Cell> := seq(24, k requires 0 <= k < 24 => Cell(20 + k % 8, 14 + k / 8))

  /** An attempt that only fortifies: a single turret spawn or an upgrade. */
  predicate Fortify(a: Action)
  {
    a == Spawn(Turret, a.at, 1) || a == Upgrade(a.at)
  }

  predicate ScoutAttempt(a: Action)
  {
    a.Spawn? && a.kind == Scout
  }

  /** Every attempt of `r` only fortifies. */
  predicate AllFortify(r: seq<Action>)
  {
    forall i :: 0 <= i < |r| ==> Fortify(r[i])
  }

  /** No attempt of `r` spawns scouts. */
  predicate NoScout(r: seq<Action>)
  {
    forall i :: 0 <= i < |r| ==> !ScoutAttempt(r[i])
  }

  lemma FortifyConcat(a: seq<Action>, b: seq<Action>)
    requires AllFortify(a) && AllFortify(b)
    ensures AllFortify(a + b)
  {
    forall i | |a| <= i < |a + b|
      ensures Fortify((a + b)[i])
    {
      assert (a + b)[i] == b[i - |a|];
    }
  }

  lemma NoScoutConcat(a: seq<Action>, b: seq<Action>)
    requires NoScout(a) && NoScout(b)
    ensures NoScout(a + b)
  {
    forall i | |a| <= i < |a + b|
      ensures !ScoutAttempt((a + b)[i])
    {
      assert (a + b)[i] == b[i - |a|];
    }
  }

  // ---------------------------------------------------------------------
  // `reinforce_location`

  /** The cells beside `loc`: right, left, and below when `9 <= x <= 17`. */
  function ReinforceNeighbours(loc: Cell): (r: seq<Cell>)
    ensures |r| == (if 9 <= loc.x <= 17 then 3 else 2)
    ensures r[0] == Cell(loc.x + 1, loc.y) && r[1] == Cell(loc.x - 1, loc.y)
    ensures forall c :: c in r ==>
              (c.y == loc.y && (c.x == loc.x + 1 || c.x == loc.x - 1)) || c == Cell(loc.x, loc.y - 1)
    ensures Cell(loc.x, loc.y - 1) in r <==> 9 <= loc.x <= 17
  {
    [Cell(loc.x + 1, loc.y), Cell(loc.x - 1, loc.y)] + (if 9 <= loc.x <= 17 then [Cell(loc.x, loc.y - 1)] else [])
  }

  /** A cell `reinforce_location` builds on: not one of the edge cells, and inside the arena. */
  predicate Buildable(h: Host, c: Cell)
  {
    c !in ILLEGAL && h.inArena(c)
  }

  /** A turret and its upgrade on every buildable cell of `cells`, in order. */
  function TurretPairs(h: Host, cells: seq<Cell>): seq<Action>
    decreases |cells|
  {
    if cells == [] then []
    else
      (if Buildable(h, cells[0]) then [Spawn(Turret, [cells[0]], 1), Upgrade([cells[0]])] else [])
      + TurretPairs(h, cells[1..])
  }

  /** What `reinforce_location(loc)` attempts; it reads no board state, so no trace is needed. */
  function ReinforceAttempts(h: Host, loc: Cell): seq<Action>
  {
    TurretPairs(h, ReinforceNeighbours(loc))
  }

  /**
   * `r` fortifies exactly the buildable cells of `cells`: each attempt is a
   * turret spawn or an upgrade on one of them, and each of them gets both.
   */
  predicate PairsOver(h: Host, cells: seq<Cell>, r: seq<Action>)
  {
    (forall i :: 0 <= i < |r| ==>
       Fortify(r[i]) && |r[i].at| == 1 && r[i].at[0] in cells && Buildable(h, r[i].at[0]))
    && (forall c :: c in cells && Buildable(h, c) ==> Spawn(Turret, [c], 1) in r && Upgrade([c]) in r)
  }

  lemma PairsOverConcat(h: Host, a: seq<Cell>, b: seq<Cell>, ra: seq<Action>, rb: seq<Action>)
    requires PairsOver(h, a, ra) && PairsOver(h, b, rb)
    ensures PairsOver(h, a + b, ra + rb)
  {
    var r := ra + rb;
    forall i | 0 <= i < |r|
      ensures Fortify(r[i]) && |r[i].at| == 1 && r[i].at[0] in a + b && Buildable(h, r[i].at[0])
    {
      if i >= |ra| {
        assert r[i] == rb[i - |ra|];
      }
    }
  }

  /** Each spawn of `r` is followed at once by the upgrade of its cell, and each upgrade comes right after its spawn. */
  predicate Paired(r: seq<Action>)
  {
    (forall k :: 0 <= k < |r| && r[k].Spawn? ==> k + 1 < |r| && r[k + 1] == Upgrade(r[k].at))
    && (forall k :: 0 <= k < |r| && r[k].Upgrade? ==> 1 <= k && r[k - 1] == Spawn(Turret, r[k].at, 1))
  }

  lemma PairedConcat(a: seq<Action>, b: seq<Action>)
    requires Paired(a) && Paired(b)
    ensures Paired(a + b)
  {
    var r := a + b;
    forall k | |a| <= k < |r|
      ensures r[k].Spawn? ==> k + 1 < |r| && r[k + 1] == Upgrade(r[k].at)
      ensures r[k].Upgrade? ==> 1 <= k && r[k - 1] == Spawn(Turret, r[k].at, 1)
    {
      assert r[k] == b[k - |a|];
      if r[k].Spawn? {
        assert r[k + 1] == b[k + 1 - |a|];
      }
      if r[k].Upgrade? {
        assert r[k - 1] == b[k - 1 - |a|];
      }
    }
  }

  /**
   * The turret pairs fortify exactly the buildable cells, each spawn is
   * followed at once by the upgrade of the same cell, and each upgrade comes
   * right after its spawn.
   */
  lemma {:induction false} TurretPairsShape(h: Host, cells: seq<Cell>)
    ensures PairsOver(h, cells, TurretPairs(h, cells)) && Paired(TurretPairs(h, cells))
    decreases |cells|
  {
    if cells != [] {
      var c := cells[0];
      var e := if Buildable(h, c) then [Spawn(Turret, [c], 1), Upgrade([c])] else [];
      var rest := TurretPairs(h, cells[1..]);
      TurretPairsShape(h, cells[1..]);
      assert PairsOver(h, [c], e) && Paired(e);
      assert [c] + cells[1..] == cells;
      PairsOverConcat(h, [c], cells[1..], e, rest);
      PairedConcat(e, rest);
      assert TurretPairs(h, cells) == e + rest;
    }
  }

  /** The neighbour rule on concrete cells: `[13,13]` also gets `[13,12]` below it; `[4,12]` and `[23,12]` do not. */
  lemma NeighbourExamples()
    ensures ReinforceNeighbours(Cell(13, 13)) == [Cell(14, 13), Cell(12, 13), Cell(13, 12)]
    ensures ReinforceNeighbours(Cell(4, 12)) == [Cell(5, 12), Cell(3, 12)]
    ensures ReinforceNeighbours(Cell(23, 12)) == [Cell(24, 12), Cell(22, 12)]
    ensures ReinforceNeighbours(Cell(1, 12)) == [Cell(2, 12), Cell(0, 12)]
  {
  }

  /** The edge cells are never fortified, whatever `in_arena_bounds` says of them. */
  lemma IllegalNeverBuilt(h: Host, loc: Cell)
    ensures forall c :: c in ILLEGAL ==>
              Spawn(Turret, [c], 1) !in ReinforceAttempts(h, loc) && Upgrade([c]) !in ReinforceAttempts(h, loc)
  {
    TurretPairsShape(h, ReinforceNeighbours(loc));
  }

  // ---------------------------------------------------------------------
  // `build_reactive_defense`

  /** The side cell a breach reinforces: `[4,12]` for a breach left of x 14, `[23,12]` otherwise. */
  function BreachSide(loc: Cell): Cell
  {
    if loc.x < 14 then Cell(4, 12) else Cell(23, 12)
  }

  /** The two reinforcements one recorded breach triggers: its side, then the centre `[13,13]`. */
  function BreachBlock(h: Host, loc: Cell): seq<Action>
  {
    ReinforceAttempts(h, BreachSide(loc)) + ReinforceAttempts(h, Cell(13, 13))
  }

  /** What `build_reactive_defense` attempts: one block per recorded breach, oldest first, with no budget check. */
  function ReactiveAttempts(h: Host, locs: seq<Cell>): seq<Action>
    decreases |locs|
  {
    if locs == [] then [] else BreachBlock(h, locs[0]) + ReactiveAttempts(h, locs[1..])
  }

  /** Blocks follow the breaches in recording order: the attempts for a concatenation are the two lists' attempts, concatenated. */
  lemma {:induction false} ReactiveAppend(h: Host, a: seq<Cell>, b: seq<Cell>)
    ensures ReactiveAttempts(h, a + b) == ReactiveAttempts(h, a) + ReactiveAttempts(h, b)
    decreases |a|
  {
    if a == [] {
      assert a + b == b;
    } else {
      assert (a + b)[0] == a[0];
      assert (a + b)[1..] == a[1..] + b;
      ReactiveAppend(h, a[1..], b);
      AppendAssoc(BreachBlock(h, a[0]), ReactiveAttempts(h, a[1..]), ReactiveAttempts(h, b));
    }
  }

  /** A newly recorded breach adds its block at the end of the reactive attempts. */
  lemma NewestBreachLast(h: Host, locs: seq<Cell>, loc: Cell)
    ensures ReactiveAttempts(h, locs + [loc]) == ReactiveAttempts(h, locs) + BreachBlock(h, loc)
  {
    ReactiveAppend(h, locs, [loc]);
    assert ReactiveAttempts(h, [loc]) == BreachBlock(h, loc) + ReactiveAttempts(h, []);
    AppendEmpty(BreachBlock(h, loc));
  }

  /**
   * One breach's block fortifies exactly the buildable neighbours of its side
   * cell and of the centre `[13,13]`.
   */
  lemma BreachBlockCells(h: Host, loc: Cell)
    ensures PairsOver(h, ReinforceNeighbours(BreachSide(loc)) + ReinforceNeighbours(Cell(13, 13)), BreachBlock(h, loc))
  {
    TurretPairsShape(h, ReinforceNeighbours(BreachSide(loc)));
    TurretPairsShape(h, ReinforceNeighbours(Cell(13, 13)));
    PairsOverConcat(h, ReinforceNeighbours(BreachSide(loc)), ReinforceNeighbours(Cell(13, 13)),
                    ReinforceAttempts(h, BreachSide(loc)), ReinforceAttempts(h, Cell(13, 13)));
  }

  /** The reactive attempts only fortify. */
  lemma {:induction false} ReactiveFortifies(h: Host, locs: seq<Cell>)
    ensures AllFortify(ReactiveAttempts(h, locs))
    decreases |locs|
  {
    if locs != [] {
      BreachBlockCells(h, locs[0]);
      ReactiveFortifies(h, locs[1..]);
      FortifyConcat(BreachBlock(h, locs[0]), ReactiveAttempts(h, locs[1..]));
    }
  }

  // ---------------------------------------------------------------------
  // `layer1`

  /** One `layer1` entry: reinforce an empty cell after turn 0, then a turret there and its upgrade. */
  function LayerEntryAttempts(h: Host, t: seq<Action>, c: Cell): seq<Action>
  {
    (if h.turn > 0 && !h.board(t).occupied(c) then ReinforceAttempts(h, c) else [])
    + [Spawn(Turret, [c], 1), Upgrade([c])]
  }

  /** What the `layer1` loop attempts over `cells`, each entry seeing the board its predecessors left. */
  function LayerAttempts(h: Host, t: seq<Action>, cells: seq<Cell>): seq<Action>
    decreases |cells|
  {
    if cells == [] then []
    else
      var e := LayerEntryAttempts(h, t, cells[0]);
      e + LayerAttempts(h, t + e, cells[1..])
  }

  /** One entry fortifies only, and attempts the turret and the upgrade on its cell. */
  lemma LayerEntryShape(h: Host, t: seq<Action>, c: Cell)
    ensures AllFortify(LayerEntryAttempts(h, t, c))
    ensures Spawn(Turret, [c], 1) in LayerEntryAttempts(h, t, c) && Upgrade([c]) in LayerEntryAttempts(h, t, c)
  {
    var re := if h.turn > 0 && !h.board(t).occupied(c) then ReinforceAttempts(h, c) else [];
    var pair := [Spawn(Turret, [c], 1), Upgrade([c])];
    if h.turn > 0 && !h.board(t).occupied(c) {
      TurretPairsShape(h, ReinforceNeighbours(c));
    }
    assert AllFortify(pair);
    FortifyConcat(re, pair);
  }

  /**
   * There is no budget check: every layer cell gets its turret and its
   * upgrade attempted, and nothing but turrets and upgrades is attempted.
   */
  lemma {:induction false} LayerShape(h: Host, t: seq<Action>, cells: seq<Cell>)
    ensures AllFortify(LayerAttempts(h, t, cells))
    ensures forall c :: c in cells ==>
              Spawn(Turret, [c], 1) in LayerAttempts(h, t, cells) && Upgrade([c]) in LayerAttempts(h, t, cells)
    decreases |cells|
  {
    if cells != [] {
      var c := cells[0];
      var e := LayerEntryAttempts(h, t, c);
      var rest := LayerAttempts(h, t + e, cells[1..]);
      LayerEntryShape(h, t, c);
      LayerShape(h, t + e, cells[1..]);
      FortifyConcat(e, rest);
      assert LayerAttempts(h, t, cells) == e + rest;
      forall d | d in cells
        ensures Spawn(Turret, [d], 1) in e + rest && Upgrade([d]) in e + rest
      {
        if d != c {
          assert d in cells[1..];
        }
      }
    }
  }

  // ---------------------------------------------------------------------
  // `left_right`

  /** An upgraded turret stands on one of `cells`. */
  predicate UpgradedIn(s: Snapshot, cells: seq<Cell>)
  {
    exists c :: c in cells && s.upgradedTurret(c)
  }

  /** A demolisher burst of 1000 on `lane`, a support at `support`, and its upgrade. */
  function Lane(lane: Cell, support: Cell): seq<Action>
  {
    [Spawn(Demolisher, [lane], 1000), Spawn(Support, [support], 1), Upgrade([support])]
  }

  /**
   * What `left_right` attempts: the left lane while the left watch area holds
   * no upgraded turret, else the right lane while the right one holds none,
   * else the lane the selector prefers (left when it has no answer), with the
   * support on the lane's side.
   */
  function LeftRightAttempts(h: Host, t: seq<Action>): seq<Action>
  {
    var s := h.board(t);
    if !UpgradedIn(s, LEFT_WATCH) then Lane(Cell(2, 11), Cell(5, 10))
    else if !UpgradedIn(s, RIGHT_WATCH) then Lane(Cell(25, 11), Cell(22, 10))
    else
      var tup := Choice(s, LANES);
      var loc := if tup.Pick? then tup.loc else Cell(2, 11);
      Lane(loc, Cell(if loc.x == 2 then 5 else 22, 10))
  }

  /**
   * The lane is always one of the two, with the support on its side; it is
   * the right lane exactly when the left area is guarded and either the right
   * one is not or the right lane is strictly less risky (ties go left).
   */
  lemma LeftRightLane(h: Host, t: seq<Action>)
    ensures var r := LeftRightAttempts(h, t);
            r == Lane(Cell(2, 11), Cell(5, 10)) || r == Lane(Cell(25, 11), Cell(22, 10))
    ensures var s := h.board(t);
            LeftRightAttempts(h, t) == Lane(Cell(25, 11), Cell(22, 10))
            <==> UpgradedIn(s, LEFT_WATCH)
                 && (!UpgradedIn(s, RIGHT_WATCH) || Risk(s, Cell(25, 11)) < Risk(s, Cell(2, 11)))
  {
    var s := h.board(t);
    if UpgradedIn(s, LEFT_WATCH) && UpgradedIn(s, RIGHT_WATCH) {
      var rs := Risks(s, LANES);
      assert rs[0] == Risk(s, Cell(2, 11)) && rs[1] == Risk(s, Cell(25, 11));
      if !AllZero(rs) {
        var m := MinOf(rs);
        var k := FirstIndex(rs, m);
        assert k == 0 || k == 1;
        assert Choice(s, LANES).loc == LANES[k];
      }
    }
  }

  // ---------------------------------------------------------------------
  // `send_scouts` and `find_location`

  /** The probe cells around a spawn location: right-below, right, left-below, left, below. */
  function Surroundings(c: Cell): seq<Cell>
  {
    [Cell(c.x + 1, c.y - 1), Cell(c.x + 1, c.y), Cell(c.x - 1, c.y - 1), Cell(c.x - 1, c.y), Cell(c.x, c.y - 1)]
  }

  /** A support spawned and removed at once on every in-arena cell of `cells`. */
  function Probes(h: Host, cells: seq<Cell>): seq<Action>
    decreases |cells|
  {
    if cells == [] then []
    else
      (if h.inArena(cells[0]) then [Spawn(Support, [cells[0]], 1), Remove([cells[0]])] else [])
      + Probes(h, cells[1..])
  }

  /** Each support spawn of `r` is removed by the very next attempt, and each removal comes right after its spawn. */
  predicate ProbePaired(r: seq<Action>)
  {
    (forall k :: 0 <= k < |r| && r[k].Spawn? ==> k + 1 < |r| && r[k + 1] == Remove(r[k].at))
    && (forall k :: 0 <= k < |r| && r[k].Remove? ==> 1 <= k && r[k - 1] == Spawn(Support, r[k].at, 1))
  }

  lemma ProbePairedConcat(a: seq<Action>, b: seq<Action>)
    requires ProbePaired(a) && ProbePaired(b)
    ensures ProbePaired(a + b)
  {
    var r := a + b;
    forall k | |a| <= k < |r|
      ensures r[k].Spawn? ==> k + 1 < |r| && r[k + 1] == Remove(r[k].at)
      ensures r[k].Remove? ==> 1 <= k && r[k - 1] == Spawn(Support, r[k].at, 1)
    {
      assert r[k] == b[k - |a|];
      if r[k].Spawn? {
        assert r[k + 1] == b[k + 1 - |a|];
      }
      if r[k].Remove? {
        assert r[k - 1] == b[k - 1 - |a|];
      }
    }
  }

  /** Probes touch only in-arena cells of `cells`, with single supports and removals. */
  lemma {:induction false} ProbesOnly(h: Host, cells: seq<Cell>)
    ensures var r := Probes(h, cells);
            |r| <= 2 * |cells|
            && forall i :: 0 <= i < |r| ==>
                 (r[i] == Spawn(Support, r[i].at, 1) || r[i] == Remove(r[i].at))
                 && |r[i].at| == 1 && r[i].at[0] in cells && h.inArena(r[i].at[0])
    decreases |cells|
  {
    if cells != [] {
      var e := if h.inArena(cells[0]) then [Spawn(Support, [cells[0]], 1), Remove([cells[0]])] else [];
      var rest := Probes(h, cells[1..]);
      ProbesOnly(h, cells[1..]);
      var r := e + rest;
      assert r == Probes(h, cells);
      forall i | 0 <= i < |r|
        ensures (r[i] == Spawn(Support, r[i].at, 1) || r[i] == Remove(r[i].at))
                && |r[i].at| == 1 && r[i].at[0] in cells && h.inArena(r[i].at[0])
      {
        if i >= |e| {
          assert r[i] == rest[i - |e|];
        }
      }
    }
  }

  /** Every in-arena cell of `cells` gets a support spawn and a removal. */
  lemma {:induction false} ProbesCover(h: Host, cells: seq<Cell>)
    ensures forall c :: c in cells && h.inArena(c) ==>
              Spawn(Support, [c], 1) in Probes(h, cells) && Remove([c]) in Probes(h, cells)
    decreases |cells|
  {
    if cells != [] {
      var e := if h.inArena(cells[0]) then [Spawn(Support, [cells[0]], 1), Remove([cells[0]])] else [];
      var rest := Probes(h, cells[1..]);
      ProbesCover(h, cells[1..]);
      assert Probes(h, cells) == e + rest;
      forall c | c in cells && h.inArena(c)
        ensures Spawn(Support, [c], 1) in e + rest && Remove([c]) in e + rest
      {
        if c != cells[0] {
          assert c in cells[1..];
        }
      }
    }
  }

  /** Each probe's support is removed by the very next attempt. */
  lemma {:induction false} ProbesPaired(h: Host, cells: seq<Cell>)
    ensures ProbePaired(Probes(h, cells))
    decreases |cells|
  {
    if cells != [] {
      var e := if h.inArena(cells[0]) then [Spawn(Support, [cells[0]], 1), Remove([cells[0]])] else [];
      ProbesPaired(h, cells[1..]);
      assert ProbePaired(e);
      ProbePairedConcat(e, Probes(h, cells[1..]));
      assert Probes(h, cells) == e + Probes(h, cells[1..]);
    }
  }

  /**
   * Probes touch only in-arena cells of `cells`, with single supports and
   * removals; every in-arena cell gets a support that the next attempt removes.
   */
  lemma ProbesShape(h: Host, cells: seq<Cell>)
    ensures var r := Probes(h, cells);
            |r| <= 2 * |cells|
            && forall i :: 0 <= i < |r| ==>
                 (r[i] == Spawn(Support, r[i].at, 1) || r[i] == Remove(r[i].at))
                 && |r[i].at| == 1 && r[i].at[0] in cells && h.inArena(r[i].at[0])
    ensures forall c :: c in cells && h.inArena(c) ==>
              Spawn(Support, [c], 1) in Probes(h, cells) && Remove([c]) in Probes(h, cells)
    ensures ProbePaired(Probes(h, cells))
  {
    ProbesOnly(h, cells);
    ProbesCover(h, cells);
    ProbesPaired(h, cells);
  }

  /**
   * What `send_scouts` attempts: the probes around the selector's pick and a
   * scout burst of 1000 there; `None` when the selector answers `None`, whose
   * unpacking raises.
   */
  function SendScoutsAttempts(h: Host, t: seq<Action>): Option<seq<Action>>
  {
    var tup := Choice(h.board(t), SCOUT_OPTIONS);
    if tup.Pick? then Some(Probes(h, Surroundings(tup.loc)) + [Spawn(Scout, [tup.loc], 1000)])
    else None
  }

  /** `send_scouts` raises exactly when every candidate's risk is 0. */
  lemma SendScoutsRaises(h: Host, t: seq<Action>)
    ensures SendScoutsAttempts(h, t).None?
            <==> forall j :: 0 <= j < |SCOUT_OPTIONS| ==> Risk(h.board(t), SCOUT_OPTIONS[j]) == 0.0
  {
    NoPickIffAllZero(h.board(t), SCOUT_OPTIONS);
  }

  /** The burst around `c`: probes beside `c` only, then the one scout spawn, at `c`. */
  lemma BurstShape(h: Host, c: Cell)
    ensures var r := Probes(h, Surroundings(c)) + [Spawn(Scout, [c], 1000)];
            r[|r| - 1] == Spawn(Scout, [c], 1000)
            && forall i :: 0 <= i < |r| - 1 ==>
                 !ScoutAttempt(r[i]) && |r[i].at| == 1 && r[i].at[0] in Surroundings(c)
  {
    var p := Probes(h, Surroundings(c));
    ProbesShape(h, Surroundings(c));
    var r := p + [Spawn(Scout, [c], 1000)];
    forall i | 0 <= i < |r| - 1
      ensures !ScoutAttempt(r[i]) && |r[i].at| == 1 && r[i].at[0] in Surroundings(c)
    {
      assert r[i] == p[i];
    }
  }

  /**
   * When `send_scouts` does not raise, it ends with the one scout burst, at a
   * candidate of least risk, and everything before it is a probe beside
   * that candidate.
   */
  lemma SendScoutsOutcome(h: Host, t: seq<Action>)
    requires SendScoutsAttempts(h, t).Some?
    ensures var r := SendScoutsAttempts(h, t).value;
            var c := Choice(h.board(t), SCOUT_OPTIONS).loc;
            c in SCOUT_OPTIONS
            && (forall j :: 0 <= j < |SCOUT_OPTIONS| ==> Risk(h.board(t), c) <= Risk(h.board(t), SCOUT_OPTIONS[j]))
            && r[|r| - 1] == Spawn(Scout, [c], 1000)
            && forall i :: 0 <= i < |r| - 1 ==>
                 !ScoutAttempt(r[i]) && |r[i].at| == 1 && r[i].at[0] in Surroundings(c)
  {
    PickIsFirstLeast(h.board(t), SCOUT_OPTIONS);
    BurstShape(h, Choice(h.board(t), SCOUT_OPTIONS).loc);
  }

  /** What the (uncalled) `find_location` attempts: `left_right` when the best scout path risks more than 400, otherwise `send_scouts`. */
  function FindLocationAttempts(h: Host, t: seq<Action>): Option<seq<Action>>
  {
    var tup := Choice(h.board(t), SCOUT_OPTIONS);
    if !tup.Pick? then SendScoutsAttempts(h, t)
    else if tup.risk > 400.0 then Some(LeftRightAttempts(h, t))
    else SendScoutsAttempts(h, t)
  }

  /**
   * `find_location` falls back on `send_scouts` with no answer, so it raises
   * exactly when `send_scouts` does; with an answer it sends the demolishers
   * when the least risk exceeds 400 and the scouts otherwise.
   */
  lemma FindLocationRoutes(h: Host, t: seq<Action>)
    ensures FindLocationAttempts(h, t).None? <==> SendScoutsAttempts(h, t).None?
    ensures var tup := Choice(h.board(t), SCOUT_OPTIONS);
            tup.Pick? && tup.risk > 400.0 ==> FindLocationAttempts(h, t) == Some(LeftRightAttempts(h, t))
    ensures var tup := Choice(h.board(t), SCOUT_OPTIONS);
            !(tup.Pick? && tup.risk > 400.0) ==> FindLocationAttempts(h, t) == SendScoutsAttempts(h, t)
  {
  }

  // ---------------------------------------------------------------------
  // `starter_strategy`

  /** The scout cadence: from turn 3, every third turn `1 (mod 3)` before turn 30, then `1 (mod 4)`. */
  predicate ScoutTurn(turn: int)
  {
    if turn <= 2 then false
    else if turn < 10 then turn % 3 == 1
    else if turn < 30 then turn % 3 == 1
    else turn % 4 == 1
  }

  /** Scouting never happens on two turns within two of each other. */
  lemma ScoutSpacing(turn: int)
    requires ScoutTurn(turn)
    ensures !ScoutTurn(turn + 1) && !ScoutTurn(turn + 2)
  {
  }

  /** From turn 3 on, one of any five consecutive turns is a scouting turn. */
  lemma ScoutWithinFiveTurns(turn: int)
    requires turn >= 3
    ensures exists n :: turn <= n < turn + 5 && ScoutTurn(n)
  {
    if turn < 29 {
      var r := turn % 3;
      var k := if r == 1 then 0 else if r == 2 then 2 else 1;
      assert ScoutTurn(turn + k);
    } else if turn <= 33 {
      assert ScoutTurn(33);
    } else {
      var r := turn % 4;
      var k := if r == 1 then 0 else if r == 0 then 1 else 5 - r;
      assert ScoutTurn(turn + k);
    }
  }

  /** The longest quiet stretch: after the scouting turn 28 the next is 33; turns 0 to 3 send none. */
  lemma QuietStretches()
    ensures ScoutTurn(28) && ScoutTurn(33) && forall n :: 28 < n < 33 ==> !ScoutTurn(n)
    ensures forall n :: n <= 3 ==> !ScoutTurn(n)
    ensures ScoutTurn(4)
  {
  }

  /** The offence of one turn: nothing before turn 2, `left_right` on turn 2, `send_scouts` on the cadence. */
  function OffenceAttempts(h: Host, t: seq<Action>): Option<seq<Action>>
  {
    if h.turn < 2 then Some([])
    else if h.turn == 2 then Some(LeftRightAttempts(h, t))
    else if ScoutTurn(h.turn) then SendScoutsAttempts(h, t)
    else Some([])
  }

  /** The defence of one turn: `build_defences` (that is, `layer1`), then `build_reactive_defense`. */
  function DefenceAttempts(h: Host, t: seq<Action>, scoredOn: seq<Cell>): seq<Action>
  {
    LayerAttempts(h, t, LAYER) + ReactiveAttempts(h, scoredOn)
  }

  /** One turn of `starter_strategy`: `None` when it raises, otherwise the attempts it makes. */
  function Turn(h: Host, t: seq<Action>, scoredOn: seq<Cell>): Option<seq<Action>>
  {
    match OffenceAttempts(h, t)
    case None => None
    case Some(off) => Some(off + DefenceAttempts(h, t + off, scoredOn))
  }

  /** A turn raises only on a scouting turn where every scout candidate's risk is 0. */
  lemma TurnFailsOnlyWhenBlind(h: Host, t: seq<Action>, scoredOn: seq<Cell>)
    ensures Turn(h, t, scoredOn).None?
            <==> ScoutTurn(h.turn)
                 && forall j :: 0 <= j < |SCOUT_OPTIONS| ==> Risk(h.board(t), SCOUT_OPTIONS[j]) == 0.0
  {
    SendScoutsRaises(h, t);
  }

  /** The defence fortifies only, and attempts the turret and upgrade of every layer cell. */
  lemma DefenceShape(h: Host, t: seq<Action>, scoredOn: seq<Cell>)
    ensures AllFortify(DefenceAttempts(h, t, scoredOn))
    ensures forall c :: c in LAYER ==>
              Spawn(Turret, [c], 1) in DefenceAttempts(h, t, scoredOn) && Upgrade([c]) in DefenceAttempts(h, t, scoredOn)
  {
    LayerShape(h, t, LAYER);
    ReactiveFortifies(h, scoredOn);
    FortifyConcat(LayerAttempts(h, t, LAYER), ReactiveAttempts(h, scoredOn));
  }

  lemma DefenceTail(off: seq<Action>, d: seq<Action>, cells: seq<Cell>)
    requires AllFortify(d)
    requires forall c :: c in cells ==> Spawn(Turret, [c], 1) in d && Upgrade([c]) in d
    ensures forall c :: c in cells ==> Spawn(Turret, [c], 1) in off + d && Upgrade([c]) in off + d
    ensures forall i :: |off| <= i < |off + d| ==> Fortify((off + d)[i])
  {
    forall i | |off| <= i < |off + d|
      ensures Fortify((off + d)[i])
    {
      assert (off + d)[i] == d[i - |off|];
    }
  }

  /**
   * Every turn that does not raise ends with the defence: each layer cell's
   * turret and upgrade is attempted, and after the offence nothing but
   * turrets and upgrades is.
   */
  lemma TurnDefends(h: Host, t: seq<Action>, scoredOn: seq<Cell>)
    requires Turn(h, t, scoredOn).Some?
    ensures var r := Turn(h, t, scoredOn).value;
            var n := |OffenceAttempts(h, t).value|;
            n <= |r|
            && (forall c :: c in LAYER ==> Spawn(Turret, [c], 1) in r && Upgrade([c]) in r)
            && forall i :: n <= i < |r| ==> Fortify(r[i])
  {
    var off := OffenceAttempts(h, t).value;
    DefenceShape(h, t + off, scoredOn);
    DefenceTail(off, DefenceAttempts(h, t + off, scoredOn), LAYER);
  }

  /** A single scout burst at one of `options`. */
  predicate ScoutAt(a: Action, options: seq<Cell>)
  {
    ScoutAttempt(a) && |a.at| == 1 && a.at[0] in options
  }

  lemma ScoutOnce(off: seq<Action>, d: seq<Action>)
    requires |off| >= 1 && ScoutAt(off[|off| - 1], SCOUT_OPTIONS)
    requires forall i :: 0 <= i < |off| - 1 ==> !ScoutAttempt(off[i])
    requires NoScout(d)
    ensures ScoutAt((off + d)[|off| - 1], SCOUT_OPTIONS)
    ensures forall i :: 0 <= i < |off + d| && i != |off| - 1 ==> !ScoutAttempt((off + d)[i])
  {
    forall i | |off| <= i < |off + d|
      ensures !ScoutAttempt((off + d)[i])
    {
      assert (off + d)[i] == d[i - |off|];
    }
  }

  /** The offence of turn 2 sends demolishers and a support, never scouts. */
  lemma LeftRightSendsNoScouts(h: Host, t: seq<Action>)
    ensures NoScout(LeftRightAttempts(h, t))
  {
    LeftRightLane(h, t);
  }

  /**
   * The offence alone: off the cadence it sends no scout; on it, when it
   * does not raise, its last attempt is the one scout burst, at a candidate.
   */
  lemma OffenceScouts(h: Host, t: seq<Action>)
    requires OffenceAttempts(h, t).Some?
    ensures var off := OffenceAttempts(h, t).value;
            !ScoutTurn(h.turn) ==> NoScout(off)
    ensures var off := OffenceAttempts(h, t).value;
            ScoutTurn(h.turn) ==>
              |off| >= 1 && ScoutAt(off[|off| - 1], SCOUT_OPTIONS)
              && forall i :: 0 <= i < |off| - 1 ==> !ScoutAttempt(off[i])
  {
    if ScoutTurn(h.turn) {
      SendScoutsOutcome(h, t);
    } else if h.turn == 2 {
      LeftRightSendsNoScouts(h, t);
    }
  }

  /** Off the cadence a turn attempts no scout at all; this covers turns 0 to 2. */
  lemma TurnOffCadence(h: Host, t: seq<Action>, scoredOn: seq<Cell>)
    requires Turn(h, t, scoredOn).Some? && !ScoutTurn(h.turn)
    ensures NoScout(Turn(h, t, scoredOn).value)
  {
    var off := OffenceAttempts(h, t).value;
    var d := DefenceAttempts(h, t + off, scoredOn);
    OffenceScouts(h, t);
    DefenceShape(h, t + off, scoredOn);
    NoScoutConcat(off, d);
  }

  /** On the cadence a turn that does not raise sends exactly one scout burst, at a scout candidate. */
  lemma TurnOnCadence(h: Host, t: seq<Action>, scoredOn: seq<Cell>)
    requires Turn(h, t, scoredOn).Some? && ScoutTurn(h.turn)
    ensures var r := Turn(h, t, scoredOn).value;
            exists k :: 0 <= k < |r| && ScoutAt(r[k], SCOUT_OPTIONS)
              && forall i :: 0 <= i < |r| && i != k ==> !ScoutAttempt(r[i])
  {
    var off := OffenceAttempts(h, t).value;
    var d := DefenceAttempts(h, t + off, scoredOn);
    OffenceScouts(h, t);
    DefenceShape(h, t + off, scoredOn);
    ScoutOnce(off, d);
  }

  // ---------------------------------------------------------------------
  // The session object

  class NoobAlgo {
    var scoredOn: seq<Cell>
    var enemyHP: seq<real>
    var enemyHPLast: real

    /** `on_game_start`: no breaches, no health history, `enemy_HP_last` at -1. */
    constructor ()
      ensures scoredOn == [] && enemyHP == [] && enemyHPLast == -1.0
    {
      scoredOn := [];
      enemyHP := [];
      enemyHPLast := -1.0;
    }

    /**
     * `on_turn`: record the opponent's health, run `starter_strategy`, then
     * remember that health; when the strategy raises, nothing is submitted
     * and `enemy_HP_last` keeps its old value.
     */
    method OnTurn(h: Host) returns (submitted: Option<seq<Action>>)
      modifies this`enemyHP, this`enemyHPLast
      ensures submitted == Turn(h, [], scoredOn)
      ensures enemyHP == old(enemyHP) + [h.enemyHealth]
      ensures enemyHPLast == if submitted.Some? then h.enemyHealth else old(enemyHPLast)
    {
      var gs := new TurnState(h);
      enemyHP := enemyHP + [h.enemyHealth];
      var ok := StarterStrategy(gs);
      if !ok {
        return None;
      }
      assert [] + Turn(h, [], scoredOn).value == Turn(h, [], scoredOn).value;
      enemyHPLast := h.enemyHealth;
      submitted := Some(gs.trace);
    }

    /** `starter_strategy`: the offence for the turn number, then `build_defences` and `build_reactive_defense`. */
    method StarterStrategy(gs: TurnState) returns (ok: bool)
      modifies gs
      ensures ok == Turn(gs.host, old(gs.trace), scoredOn).Some?
      ensures ok ==> gs.trace == old(gs.trace) + Turn(gs.host, old(gs.trace), scoredOn).value
      ensures !ok ==> gs.trace == old(gs.trace)
    {
      ghost var h := gs.host;
      ghost var t := gs.trace;
      ok := Offence(gs);
      if !ok {
        return;
      }
      ghost var off := OffenceAttempts(h, t).value;
      BuildDefences(gs);
      ghost var lay := LayerAttempts(h, t + off, LAYER);
      BuildReactiveDefense(gs);
      ghost var re := ReactiveAttempts(h, scoredOn);
      AppendAssoc(t + off, lay, re);
      AppendAssoc(t, off, lay + re);
    }

    /** The turn-number cadence at the head of `starter_strategy`. */
    method Offence(gs: TurnState) returns (ok: bool)
      modifies gs
      ensures ok == OffenceAttempts(gs.host, old(gs.trace)).Some?
      ensures ok ==> gs.trace == old(gs.trace) + OffenceAttempts(gs.host, old(gs.trace)).value
      ensures !ok ==> gs.trace == old(gs.trace)
    {
      var turn := gs.host.turn;
      ok := true;
      if turn < 2 {
        AppendEmpty(gs.trace);
      } else if turn == 2 {
        LeftRight(gs);
      } else if turn < 10 {
        if turn % 3 == 1 {
          ok := SendScouts(gs);
        } else {
          AppendEmpty(gs.trace);
        }
      } else if turn < 30 {
        if turn % 3 == 1 {
          ok := SendScouts(gs);
        } else {
          AppendEmpty(gs.trace);
        }
      } else {
        if turn % 4 == 1 {
          ok := SendScouts(gs);
        } else {
          AppendEmpty(gs.trace);
        }
      }
    }

    /** `build_defences`: `layer1`. */
    method BuildDefences(gs: TurnState)
      modifies gs
      ensures gs.trace == old(gs.trace) + LayerAttempts(gs.host, old(gs.trace), LAYER)
    {
      Layer1(gs);
    }

    /** `layer1`: its loop over the layer cells. */
    method Layer1(gs: TurnState)
      modifies gs
      ensures gs.trace == old(gs.trace) + LayerAttempts(gs.host, old(gs.trace), LAYER)
    {
      var h := gs.host;
      ghost var goal := gs.trace + LayerAttempts(h, gs.trace, LAYER);
      var rest := LAYER;
      while rest != []
        invariant goal == gs.trace + LayerAttempts(h, gs.trace, rest)
        decreases |rest|
      {
        ghost var t := gs.trace;
        LayerEntry(gs, rest[0]);
        AppendAssoc(t, LayerEntryAttempts(h, t, rest[0]), LayerAttempts(h, gs.trace, rest[1..]));
        rest := rest[1..];
      }
    }

    /** The body of the `layer1` loop: reinforce an empty cell after turn 0, then the turret and its upgrade. */
    method LayerEntry(gs: TurnState, c: Cell)
      modifies gs
      ensures gs.trace == old(gs.trace) + LayerEntryAttempts(gs.host, old(gs.trace), c)
    {
      ghost var t := gs.trace;
      ghost var re := if gs.host.turn > 0 && !gs.Board().occupied(c) then ReinforceAttempts(gs.host, c) else [];
      if gs.host.turn > 0 && !gs.Board().occupied(c) {
        Reinforce(gs, c);
      } else {
        assert t + re == t;
      }
      var n := gs.Attempt(Spawn(Turret, [c], 1));
      n := gs.Attempt(Upgrade([c]));
      AppendAssoc(t + re, [Spawn(Turret, [c], 1)], [Upgrade([c])]);
      AppendAssoc(t, re, [Spawn(Turret, [c], 1), Upgrade([c])]);
    }

    /** `build_reactive_defense`: for each recorded breach, oldest first, its side cell and then the centre. */
    method BuildReactiveDefense(gs: TurnState)
      modifies gs
      ensures gs.trace == old(gs.trace) + ReactiveAttempts(gs.host, scoredOn)
    {
      var h := gs.host;
      ghost var goal := gs.trace + ReactiveAttempts(h, scoredOn);
      var rest := scoredOn;
      while rest != []
        invariant goal == gs.trace + ReactiveAttempts(h, rest)
        decreases |rest|
      {
        ghost var t := gs.trace;
        var side := if rest[0].x < 14 then Cell(4, 12) else Cell(23, 12);
        Reinforce(gs, side);
        Reinforce(gs, Cell(13, 13));
        AppendAssoc(t, ReinforceAttempts(h, side), ReinforceAttempts(h, Cell(13, 13)));
        AppendAssoc(t, BreachBlock(h, rest[0]), ReactiveAttempts(h, rest[1..]));
        rest := rest[1..];
      }
    }

    /** `reinforce_location`: derive the neighbours, then a turret and its upgrade on each legal in-arena one. */
    method Reinforce(gs: TurnState, loc: Cell)
      modifies gs
      ensures gs.trace == old(gs.trace) + ReinforceAttempts(gs.host, loc)
    {
      var i, j := loc.x, loc.y;
      var neigh := [Cell(i + 1, j), Cell(i - 1, j)];
      if 9 <= i <= 17 {
        neigh := neigh + [Cell(i, j - 1)];
      }
      assert neigh == ReinforceNeighbours(loc);
      PairsLoop(gs, neigh);
    }

    /** The loop of `reinforce_location`: skip the edge cells, build on the in-arena rest. */
    method PairsLoop(gs: TurnState, cells: seq<Cell>)
      modifies gs
      ensures gs.trace == old(gs.trace) + TurretPairs(gs.host, cells)
    {
      var h := gs.host;
      ghost var goal := gs.trace + TurretPairs(h, cells);
      var rest := cells;
      while rest != []
        invariant goal == gs.trace + TurretPairs(h, rest)
        decreases |rest|
      {
        ghost var t := gs.trace;
        var n := rest[0];
        if n in ILLEGAL {
          rest := rest[1..];
          continue;
        }
        if h.inArena(n) {
          var placed := gs.Attempt(Spawn(Turret, [n], 1));
          placed := gs.Attempt(Upgrade([n]));
          AppendAssoc(t, [Spawn(Turret, [n], 1)], [Upgrade([n])]);
          AppendAssoc(t, [Spawn(Turret, [n], 1), Upgrade([n])], TurretPairs(h, rest[1..]));
        }
        rest := rest[1..];
      }
    }

    /** `left_right`: scan both watch areas, then send the demolishers down the chosen lane. */
    method LeftRight(gs: TurnState)
      modifies gs
      ensures gs.trace == old(gs.trace) + LeftRightAttempts(gs.host, old(gs.trace))
    {
      ghost var t := gs.trace;
      var s := gs.Board();
      var left := FindUpgradedTurret(s, LEFT_WATCH);
      var right := FindUpgradedTurret(s, RIGHT_WATCH);
      var lane, x;
      if !left {
        lane, x := Cell(2, 11), 5;
      } else if !right {
        lane, x := Cell(25, 11), 22;
      } else {
        var tup, evaluated := LeastDamage(s, LANES);
        lane := if tup.Pick? then tup.loc else Cell(2, 11);
        x := if lane.x == 2 then 5 else 22;
      }
      assert LeftRightAttempts(gs.host, t) == Lane(lane, Cell(x, 10));
      var n := gs.Attempt(Spawn(Demolisher, [lane], 1000));
      n := gs.Attempt(Spawn(Support, [Cell(x, 10)], 1));
      n := gs.Attempt(Upgrade([Cell(x, 10)]));
    }

    /** `send_scouts`: `false` where the selector's `None` makes the unpacking raise, before any attempt. */
    method SendScouts(gs: TurnState) returns (ok: bool)
      modifies gs
      ensures ok == SendScoutsAttempts(gs.host, old(gs.trace)).Some?
      ensures ok ==> gs.trace == old(gs.trace) + SendScoutsAttempts(gs.host, old(gs.trace)).value
      ensures !ok ==> gs.trace == old(gs.trace)
    {
      ghost var t := gs.trace;
      var tup, evaluated := LeastDamage(gs.Board(), SCOUT_OPTIONS);
      if !tup.Pick? {
        return false;
      }
      var best := tup.loc;
      ProbeAround(gs, best);
      var n := gs.Attempt(Spawn(Scout, [best], 1000));
      AppendAssoc(t, Probes(gs.host, Surroundings(best)), [Spawn(Scout, [best], 1000)]);
      return true;
    }

    /** The probe loop of `send_scouts`: a support spawned and removed on each in-arena cell around `best`. */
    method ProbeAround(gs: TurnState, best: Cell)
      modifies gs
      ensures gs.trace == old(gs.trace) + Probes(gs.host, Surroundings(best))
    {
      var h := gs.host;
      var x, y := best.x, best.y;
      var neigh := [Cell(x + 1, y - 1), Cell(x + 1, y), Cell(x - 1, y - 1), Cell(x - 1, y), Cell(x, y - 1)];
      assert neigh == Surroundings(best);
      ghost var goal := gs.trace + Probes(h, neigh);
      var rest := neigh;
      while rest != []
        invariant goal == gs.trace + Probes(h, rest)
        decreases |rest|
      {
        ghost var t := gs.trace;
        var n := rest[0];
        if h.inArena(n) {
          var placed := gs.Attempt(Spawn(Support, [n], 1));
          placed := gs.Attempt(Remove([n]));
          AppendAssoc(t, [Spawn(Support, [n], 1)], [Remove([n])]);
          AppendAssoc(t, [Spawn(Support, [n], 1), Remove([n])], Probes(h, rest[1..]));
        }
        rest := rest[1..];
      }
    }

    /** `find_location` (not called by `starter_strategy`). */
    method FindLocation(gs: TurnState) returns (ok: bool)
      modifies gs
      ensures ok == FindLocationAttempts(gs.host, old(gs.trace)).Some?
      ensures ok ==> gs.trace == old(gs.trace) + FindLocationAttempts(gs.host, old(gs.trace)).value
    {
      var tup, evaluated := LeastDamage(gs.Board(), SCOUT_OPTIONS);
      if !tup.Pick? {
        ok := SendScouts(gs);
        return;
      }
      if tup.risk > 400.0 {
        LeftRight(gs);
        return true;
      }
      ok := SendScouts(gs);
    }

    /** `on_action_frame`: record the opponent's breaches of the frame, in order. */
    method OnActionFrame(events: seq<BreachEvent>)
      modifies this`scoredOn
      ensures scoredOn == old(scoredOn) + OpponentBreaches(events)
    {
      var k := 0;
      while k < |events|
        invariant 0 <= k <= |events|
        invariant scoredOn == old(scoredOn) + OpponentBreaches(events[..k])
      {
        if events[k].owner != 1 {
          scoredOn := scoredOn + [events[k].location];
        }
        assert events[..k + 1][..k] == events[..k];
        k := k + 1;
      }
      assert events[..k] == events;
    }
  }

  /** The left/right watch scan of `left_right`: stops at the first upgraded turret. */
  method FindUpgradedTurret(s: Snapshot, cells: seq<Cell>) returns (found: bool)
    ensures found <==> UpgradedIn(s, cells)
  {
    var i := 0;
    while i < |cells|
      invariant 0 <= i <= |cells|
      invariant forall j :: 0 <= j < i ==> !s.upgradedTurret(cells[j])
    {
      if s.upgradedTurret(cells[i]) {
        return true;
      }
      i := i + 1;
    }
    return false;
  }
}
