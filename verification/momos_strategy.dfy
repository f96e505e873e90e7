/**
 * The MOMOS strategy: its session state (dome mode, last scout spawn
 * location, recorded breaches), the offence it runs on each turn, and the
 * turn as a whole. `Turn` says what one turn attempts and how the session
 * changes; the `MomosAlgo` methods issue those attempts through the host.
 */
module MomosStrategy {
  import opened Game
  import opened Seqs
  import opened PathCost
  import opened Breach
  import opened MomosSelector
  import opened MomosPlan

  /** The scout spawn candidates of `send_scouts`, before the list is reversed. */
  const SCOUT_OPTIONS: seq<Cell> := [Cell(7, 6), Cell(8, 5), Cell(9, 4), Cell(14, 0), Cell(15, 1), Cell(16, 2), Cell(17, 3)]

  /** The support diagonal of `sucidal_scouts`, along the bottom-left edge. */
  const LEFT_CHAIN: seq<Cell> :=
    [Cell(1, 12), Cell(2, 11), Cell(3, 10), Cell(4, 9), Cell(5, 8), Cell(6, 7), Cell(7, 6),
     Cell(8, 5), Cell(9, 4), Cell(10, 3), Cell(11, 2), Cell(12, 1), Cell(13, 0)]

  /** The support diagonal of `sucidal_scouts1`, along the bottom-right edge. */
  const RIGHT_CHAIN: seq<Cell> :=
    [Cell(14, 0), Cell(15, 1), Cell(16, 2), Cell(17, 3), Cell(18, 4), Cell(19, 5), Cell(20, 6),
     Cell(21, 7), Cell(22, 8), Cell(23, 9), Cell(24, 10), Cell(25, 11), Cell(26, 12), Cell(27, 13)]

  /** The two dome-mode candidates. */
  const DOME_OPTIONS: seq<Cell> := [Cell(13, 0), Cell(14, 0)]

  /** `set_supports` locations, and the single location of `set_supports1`. */
  const SUPPORTS: seq<Cell> := [Cell(1, 12), Cell(2, 11)]
  const SUPPORT_EXTRA: Cell := Cell(3, 10)

  /** The side of the square grid `remove_all` sweeps. */
  const ARENA_SIZE: nat := 28

  /** The strategy's memory between turns. */
  datatype Session = Session(dome: bool, last: Cell, scoredOn: seq<Cell>)

  /** An offence: the attempts it makes and the last spawn location after it. */
  datatype Step = Step(attempts: seq<Action>, last: Cell)

  /** The outcome of the end-of-turn health check. */
  datatype ModeChange = ModeChange(dome: bool, clear: bool)

  /** A whole turn: the attempts in order, and the session for the next turn. */
  datatype TurnResult = TurnResult(attempts: seq<Action>, session: Session)

  predicate ScoutAttempt(a: Action)
  {
    a.Spawn? && a.kind == Scout
  }

  // ---------------------------------------------------------------------
  // Cadence and mode

  /** Whether a normal-mode turn sends scouts: every turn before 10, then odd turns, then every third, then every fourth. */
  predicate ScoutTurn(turn: int)
  {
    if turn < 10 then true
    else if turn < 15 then turn % 2 == 1
    else if turn < 30 then turn % 3 == 1
    else turn % 4 == 1
  }

  /** The cadence never leaves more than four turns in a row without scouts. */
  lemma ScoutWithinFiveTurns(turn: int)
    ensures ScoutTurn(turn) || ScoutTurn(turn + 1) || ScoutTurn(turn + 2) || ScoutTurn(turn + 3) || ScoutTurn(turn + 4)
  {
    if turn < 10 {
    } else if turn < 14 {
      if turn % 2 == 0 {
        assert ScoutTurn(turn + 1);
      }
    } else if turn == 14 {
      assert ScoutTurn(16);
    } else if turn == 29 {
      assert ScoutTurn(33);
    } else if turn < 30 {
      var r := turn % 3;
      if r == 0 {
        assert (turn + 1) % 3 == 1;
      } else if r == 2 {
        assert (turn + 2) % 3 == 1;
      }
    } else {
      var r := turn % 4;
      if r == 0 {
        assert (turn + 1) % 4 == 1;
      } else if r == 2 {
        assert (turn + 3) % 4 == 1;
      } else if r == 3 {
        assert (turn + 2) % 4 == 1;
      }
    }
  }

  /** From turn 30 on the scout turns are exactly four apart. */
  lemma LateCadence(turn: int)
    requires turn >= 30 && ScoutTurn(turn)
    ensures !ScoutTurn(turn + 1) && !ScoutTurn(turn + 2) && !ScoutTurn(turn + 3) && ScoutTurn(turn + 4)
  {
  }

  /** The gap bound is reached: turns 29 to 32 send no scouts. */
  lemma QuietStretch()
    ensures !ScoutTurn(29) && !ScoutTurn(30) && !ScoutTurn(31) && !ScoutTurn(32)
    ensures ScoutTurn(28) && ScoutTurn(33)
  {
  }

  /** The emergency test at the end of `starter_strategy`. */
  predicate EnterDome(my: real, enemy: real)
  {
    (enemy - my > 8.0 && my < 16.0) || enemy < 6.0 || my < 11.0
  }

  /**
   * The end-of-turn mode update: the emergency test sets dome mode and clears
   * the board; otherwise a lead of more than 7 in dome mode leaves it and
   * clears the board; otherwise nothing changes.
   */
  function ModeStep(dome: bool, my: real, enemy: real): (m: ModeChange)
    ensures EnterDome(my, enemy) ==> m == ModeChange(true, true)
    ensures m.dome != dome ==> m.clear
    ensures m.clear ==> m.dome || dome
    ensures dome && !m.dome ==> my >= 11.0 && enemy >= 6.0 && my > enemy + 7.0
    ensures !dome && !EnterDome(my, enemy) ==> m == ModeChange(false, false)
    ensures dome && !EnterDome(my, enemy) && my - enemy > 7.0 ==> m == ModeChange(false, true)
    ensures !EnterDome(my, enemy) && !(dome && my - enemy > 7.0) ==> m == ModeChange(dome, false)
    ensures m.clear ==> EnterDome(my, enemy) || m.dome != dome
  {
    if EnterDome(my, enemy) then ModeChange(true, true)
    else if my - enemy > 7.0 && dome then ModeChange(false, true)
    else ModeChange(dome, false)
  }

  /** With the health values unchanged, a second health check changes nothing: the mode does not oscillate. */
  lemma ModeSettles(dome: bool, my: real, enemy: real)
    ensures var m := ModeStep(dome, my, enemy);
            ModeStep(m.dome, my, enemy).dome == m.dome
  {
  }

  // ---------------------------------------------------------------------
  // The offence

  /**
   * `send_scouts`: pick the least-risk candidate of the reversed option list,
   * spawn 1000 scouts there, and remember the location when any was placed.
   */
  function SendScoutsStep(h: Host, t: seq<Action>, last: Cell): Step
  {
    var c := Choice(h.board(t), Reverse(SCOUT_OPTIONS));
    var a := Spawn(Scout, [c.loc], 1000);
    Step([a], if h.placed(t, a) > 0 then c.loc else last)
  }

  /**
   * `sucidal_scouts` and `sucidal_scouts1`: supports along a diagonal, their
   * upgrade, then two bursts of 1000 scouts, each remembered when placed.
   */
  function SuicidalStep(h: Host, t: seq<Action>, last: Cell, chain: seq<Cell>, first: Cell, second: Cell): Step
  {
    var pre := [Spawn(Support, chain, 1), Upgrade(chain)];
    var s1 := Spawn(Scout, [first], 1000);
    var s2 := Spawn(Scout, [second], 1000);
    var last1 := if h.placed(t + pre, s1) > 0 then first else last;
    Step(pre + [s1, s2], if h.placed(t + pre + [s1], s2) > 0 then second else last1)
  }

  /** The dome-mode offence: the diagonal ending at the safer of `[13,0]` and `[14,0]`. */
  function DomeStep(h: Host, t: seq<Action>, last: Cell): Step
  {
    var c := Choice(h.board(t), DOME_OPTIONS);
    if c.loc == Cell(13, 0) then SuicidalStep(h, t, last, LEFT_CHAIN, Cell(14, 0), Cell(15, 1))
    else SuicidalStep(h, t, last, RIGHT_CHAIN, Cell(13, 0), Cell(12, 1))
  }

  /** The offence at the head of `starter_strategy`. */
  function OffenceStep(h: Host, t: seq<Action>, s: Session): Step
  {
    if s.dome then DomeStep(h, t, s.last)
    else if ScoutTurn(h.turn) then SendScoutsStep(h, t, s.last)
    else Step([], s.last)
  }

  /** The offence places no removal and, in normal mode, scouts only on scout turns and only at the options. */
  lemma OffenceShape(h: Host, t: seq<Action>, s: Session)
    ensures forall a :: a in OffenceStep(h, t, s).attempts ==> !a.Remove?
    ensures !s.dome && !ScoutTurn(h.turn) ==> OffenceStep(h, t, s) == Step([], s.last)
    ensures !s.dome && ScoutTurn(h.turn) ==>
              var st := OffenceStep(h, t, s);
              |st.attempts| == 1 && ScoutAttempt(st.attempts[0]) && st.attempts[0].num == 1000
              && |st.attempts[0].at| == 1 && st.attempts[0].at[0] in SCOUT_OPTIONS
  {
    if !s.dome && ScoutTurn(h.turn) {
      ScoutOptionsReversed();
      ChoicePicksOption(h.board(t), Reverse(SCOUT_OPTIONS));
    }
  }

  /** The candidate order `send_scouts` scans: from `[17,3]` back to `[7,6]`. */
  lemma ScoutOptionsReversed()
    ensures Reverse(SCOUT_OPTIONS) == [Cell(17, 3), Cell(16, 2), Cell(15, 1), Cell(14, 0), Cell(9, 4), Cell(8, 5), Cell(7, 6)]
  {
    var r := Reverse(SCOUT_OPTIONS);
    assert r[0] == SCOUT_OPTIONS[6] && r[1] == SCOUT_OPTIONS[5] && r[2] == SCOUT_OPTIONS[4];
    assert r[3] == SCOUT_OPTIONS[3] && r[4] == SCOUT_OPTIONS[2] && r[5] == SCOUT_OPTIONS[1] && r[6] == SCOUT_OPTIONS[0];
  }

  /** A placed scout at `c` among `acts`, issued after `t` and the attempts before it. */
  ghost predicate PlacedScoutAt(h: Host, t: seq<Action>, acts: seq<Action>, c: Cell)
  {
    exists i :: 0 <= i < |acts| && acts[i] == Spawn(Scout, [c], 1000) && h.placed(t + acts[..i], acts[i]) > 0
  }

  /** The last spawn location moves only to where the offence just placed scouts. */
  lemma OffenceMovesLastOnlyOnPlacement(h: Host, t: seq<Action>, s: Session)
    ensures var st := OffenceStep(h, t, s);
            st.last != s.last ==> PlacedScoutAt(h, t, st.attempts, st.last)
  {
    var st := OffenceStep(h, t, s);
    if st.last != s.last {
      if s.dome {
        var c := Choice(h.board(t), DOME_OPTIONS);
        var chain := if c.loc == Cell(13, 0) then LEFT_CHAIN else RIGHT_CHAIN;
        var pre := [Spawn(Support, chain, 1), Upgrade(chain)];
        assert st.attempts[..2] == pre;
        assert st.attempts[..3] == pre + [st.attempts[2]];
        AppendAssoc(t, pre, [st.attempts[2]]);
        if h.placed(t + pre + [st.attempts[2]], st.attempts[3]) > 0 {
          assert st.attempts[3] == Spawn(Scout, [st.last], 1000);
        } else {
          assert st.attempts[2] == Spawn(Scout, [st.last], 1000);
        }
      } else {
        assert st.attempts[..0] == [] && t + [] == t;
        assert st.attempts[0] == Spawn(Scout, [st.last], 1000);
        assert h.placed(t + st.attempts[..0], st.attempts[0]) > 0;
      }
    }
  }

  /** In dome mode the lane is the left diagonal exactly when `[13,0]` is risk-free or no riskier than a risky `[14,0]`. */
  lemma DomeLane(h: Host, t: seq<Action>, last: Cell)
    ensures var b := h.board(t);
            var st := DomeStep(h, t, last);
            st.attempts[0] == Spawn(Support, LEFT_CHAIN, 1) || st.attempts[0] == Spawn(Support, RIGHT_CHAIN, 1)
    ensures var b := h.board(t);
            DomeStep(h, t, last).attempts[0] == Spawn(Support, LEFT_CHAIN, 1)
            <==> Risk(b, Cell(13, 0)) == 0.0 || (Risk(b, Cell(14, 0)) != 0.0 && Risk(b, Cell(13, 0)) <= Risk(b, Cell(14, 0)))
  {
    var b := h.board(t);
    var rs := Risks(b, DOME_OPTIONS);
    assert rs[0] == Risk(b, Cell(13, 0)) && rs[1] == Risk(b, Cell(14, 0));
    assert LEFT_CHAIN != RIGHT_CHAIN by { assert LEFT_CHAIN[0] != RIGHT_CHAIN[0]; }
    if 0.0 !in rs {
      var m := MinOf(rs);
      assert FirstIndex(rs, m) == 0 <==> rs[0] <= rs[1];
    }
  }

  // ---------------------------------------------------------------------
  // Supports and the board sweep

  /** Support spawns, each followed by its upgrade when `upgrade` holds, in list order. */
  function SupportAttempts(cells: seq<Cell>, upgrade: bool): (r: seq<Action>)
    ensures forall c :: c in cells ==> Spawn(Support, [c], 1) in r && (upgrade ==> Upgrade([c]) in r)
    ensures forall a :: a in r ==>
              |a.at| == 1 && a.at[0] in cells && ((a.Spawn? && a.kind == Support) || (upgrade && a.Upgrade?))
  {
    if cells == [] then []
    else
      var c := cells[0];
      ([Spawn(Support, [c], 1)] + (if upgrade then [Upgrade([c])] else [])) + SupportAttempts(cells[1..], upgrade)
  }

  /** What `remove_all` attempts in its first `k` iterations: iteration `m` removes `[m / 28, m % 28]`. */
  function Sweep(k: nat): (r: seq<Action>)
    ensures |r| == k
  {
    seq(k, m requires 0 <= m < k => Remove([Cell(m / ARENA_SIZE, m % ARENA_SIZE)]))
  }

  /** The full sweep attempts a removal at every cell of the 28 x 28 grid. */
  lemma SweepCoversGrid()
    ensures forall i, j :: 0 <= i < ARENA_SIZE && 0 <= j < ARENA_SIZE ==>
              Remove([Cell(i, j)]) in Sweep(ARENA_SIZE * ARENA_SIZE)
  {
    var r := Sweep(ARENA_SIZE * ARENA_SIZE);
    forall i, j | 0 <= i < ARENA_SIZE && 0 <= j < ARENA_SIZE
      ensures Remove([Cell(i, j)]) in r
    {
      var m := ARENA_SIZE * i + j;
      assert m / ARENA_SIZE == i && m % ARENA_SIZE == j;
      assert r[m] == Remove([Cell(i, j)]);
    }
  }

  /** The sweep attempts removals of single cells and nothing else. */
  lemma SweepOnlyRemoves(k: nat)
    ensures forall a :: a in Sweep(k) ==> a.Remove? && |a.at| == 1
  {
  }

  // ---------------------------------------------------------------------
  // The turn

  /**
   * What `starter_strategy` attempts after the offence: reactive defence
   * around the breaches newest first, the supports, then `layer1`.
   */
  function DefenceAttempts(h: Host, t: seq<Action>, last: Cell, scoredOn: seq<Cell>): seq<Action>
  {
    var react := ReactiveAttempts(h, t, last, Reverse(scoredOn));
    var sup := SupportAttempts(SUPPORTS, true) + SupportAttempts([SUPPORT_EXTRA], h.turn > 0);
    react + sup + Layer1Attempts(h, t + react + sup, last)
  }

  /**
   * `starter_strategy`: the offence, the defence, and finally the health
   * check, with a board sweep when the mode step asks for one. Reinforcement
   * paths are computed from the last spawn location as the offence left it.
   */
  function Turn(h: Host, t: seq<Action>, s: Session): TurnResult
  {
    var off := OffenceStep(h, t, s);
    var m := ModeStep(s.dome, h.myHealth, h.enemyHealth);
    TurnResult(off.attempts + DefenceAttempts(h, t + off.attempts, off.last, s.scoredOn)
                 + (if m.clear then Sweep(ARENA_SIZE * ARENA_SIZE) else []),
               Session(m.dome, off.last, s.scoredOn))
  }

  /** The defence places no scouts and removes only cells of the inner layer. */
  lemma DefenceShape(h: Host, t: seq<Action>, last: Cell, scoredOn: seq<Cell>)
    ensures forall a :: a in DefenceAttempts(h, t, last, scoredOn) ==>
              !ScoutAttempt(a) && (a.Remove? ==> RemovalOf(a, LAYER_INNER))
  {
    var react := ReactiveAttempts(h, t, last, Reverse(scoredOn));
    var sup := SupportAttempts(SUPPORTS, true) + SupportAttempts([SUPPORT_EXTRA], h.turn > 0);
    var layer := Layer1Attempts(h, t + react + sup, last);
    ReactivePlacesTurrets(h, t, last, Reverse(scoredOn));
    Layer1Shape(h, t + react + sup, last);
    DefencePartsCombine(react, sup, layer);
  }

  lemma DefencePartsCombine(react: seq<Action>, sup: seq<Action>, layer: seq<Action>)
    requires forall a :: a in react ==> TurretAttempt(a)
    requires forall a :: a in sup ==> (a.Spawn? && a.kind == Support) || a.Upgrade?
    requires forall a :: a in layer ==> TurretAttempt(a) || RemovalOf(a, LAYER_INNER)
    ensures forall a :: a in react + sup + layer ==> !ScoutAttempt(a) && (a.Remove? ==> RemovalOf(a, LAYER_INNER))
  {
  }

  /**
   * The board is swept only on a mode change or an emergency: every removal
   * of the turn outside the inner layer belongs to the sweep, the sweep is
   * the turn's tail, and the session's mode is the mode step's.
   */
  lemma TurnSweepsOnlyOnModeChange(h: Host, t: seq<Action>, s: Session)
    ensures var r := Turn(h, t, s);
            var m := ModeStep(s.dome, h.myHealth, h.enemyHealth);
            && r.session.dome == m.dome
            && (m.clear ==> |r.attempts| >= ARENA_SIZE * ARENA_SIZE
                            && r.attempts[|r.attempts| - ARENA_SIZE * ARENA_SIZE..] == Sweep(ARENA_SIZE * ARENA_SIZE))
            && (forall a :: a in r.attempts && a.Remove? && !RemovalOf(a, LAYER_INNER) ==> m.clear)
  {
    var off := OffenceStep(h, t, s);
    var d := DefenceAttempts(h, t + off.attempts, off.last, s.scoredOn);
    var m := ModeStep(s.dome, h.myHealth, h.enemyHealth);
    var tail := if m.clear then Sweep(ARENA_SIZE * ARENA_SIZE) else [];
    OffenceShape(h, t, s);
    DefenceShape(h, t + off.attempts, off.last, s.scoredOn);
    var r := Turn(h, t, s);
    assert r.attempts == (off.attempts + d) + tail;
  }

  /** No scouts leave in normal mode off the cadence; on the cadence the turn opens with one scout burst at an option. */
  lemma TurnFollowsCadence(h: Host, t: seq<Action>, s: Session)
    requires !s.dome
    ensures var r := Turn(h, t, s);
            !ScoutTurn(h.turn) ==> forall i :: 0 <= i < |r.attempts| ==> !ScoutAttempt(r.attempts[i])
    ensures var r := Turn(h, t, s);
            ScoutTurn(h.turn) ==>
              && |r.attempts| >= 1
              && ScoutAttempt(r.attempts[0]) && |r.attempts[0].at| == 1 && r.attempts[0].at[0] in SCOUT_OPTIONS
              && forall i :: 1 <= i < |r.attempts| ==> !ScoutAttempt(r.attempts[i])
  {
    var off := OffenceStep(h, t, s);
    var d := DefenceAttempts(h, t + off.attempts, off.last, s.scoredOn);
    var m := ModeStep(s.dome, h.myHealth, h.enemyHealth);
    var tail := if m.clear then Sweep(ARENA_SIZE * ARENA_SIZE) else [];
    OffenceShape(h, t, s);
    DefenceShape(h, t + off.attempts, off.last, s.scoredOn);
    SweepOnlyRemoves(ARENA_SIZE * ARENA_SIZE);
    ScoutFreeAfter(off.attempts, d, tail);
  }

  /** Scout-free parts appended after a head leave every position past the head scout-free. */
  lemma ScoutFreeAfter(head: seq<Action>, d: seq<Action>, tail: seq<Action>)
    requires forall a :: a in d ==> !ScoutAttempt(a)
    requires forall a :: a in tail ==> !ScoutAttempt(a)
    ensures forall i :: |head| <= i < |head + d + tail| ==> !ScoutAttempt((head + d + tail)[i])
  {
    forall i | |head| <= i < |head + d + tail|
      ensures !ScoutAttempt((head + d + tail)[i])
    {
      if i < |head| + |d| {
        assert (head + d + tail)[i] == d[i - |head|];
      } else {
        assert (head + d + tail)[i] == tail[i - |head| - |d|];
      }
    }
  }

  /** The last spawn location changes only when a scout burst of the turn was placed there. */
  lemma TurnMovesLastOnlyOnPlacement(h: Host, t: seq<Action>, s: Session)
    ensures var r := Turn(h, t, s);
            r.session.last != s.last ==> PlacedScoutAt(h, t, r.attempts, r.session.last)
  {
    var off := OffenceStep(h, t, s);
    var d := DefenceAttempts(h, t + off.attempts, off.last, s.scoredOn);
    var m := ModeStep(s.dome, h.myHealth, h.enemyHealth);
    var tail := if m.clear then Sweep(ARENA_SIZE * ARENA_SIZE) else [];
    OffenceMovesLastOnlyOnPlacement(h, t, s);
    if off.last != s.last {
      PlacedScoutKept(h, t, off.attempts, d, off.last);
      PlacedScoutKept(h, t, off.attempts + d, tail, off.last);
    }
  }

  /** Attempts issued later do not undo an earlier placement. */
  lemma PlacedScoutKept(h: Host, t: seq<Action>, acts: seq<Action>, more: seq<Action>, c: Cell)
    requires PlacedScoutAt(h, t, acts, c)
    ensures PlacedScoutAt(h, t, acts + more, c)
  {
    var i :| 0 <= i < |acts| && acts[i] == Spawn(Scout, [c], 1000) && h.placed(t + acts[..i], acts[i]) > 0;
    assert (acts + more)[..i] == acts[..i];
    assert (acts + more)[i] == acts[i];
  }

  /** Scenario: own health 10 against 20 enters dome mode and ends the turn with the board sweep. */
  lemma HealthDeficitEntersDome(h: Host, t: seq<Action>, s: Session)
    requires h.myHealth == 10.0 && h.enemyHealth == 20.0
    ensures var r := Turn(h, t, s);
            && r.session.dome
            && |r.attempts| >= ARENA_SIZE * ARENA_SIZE
            && r.attempts[|r.attempts| - ARENA_SIZE * ARENA_SIZE..] == Sweep(ARENA_SIZE * ARENA_SIZE)
  {
    TurnSweepsOnlyOnModeChange(h, t, s);
  }

  // ---------------------------------------------------------------------
  // The session object

  class MomosAlgo {
    var dome: bool
    var lastSpawn: Cell
    var scoredOn: seq<Cell>

    /** `on_game_start`: normal mode, last spawn `[13,0]`, no breaches recorded. */
    constructor ()
      ensures State() == Session(false, Cell(13, 0), [])
    {
      dome := false;
      lastSpawn := Cell(13, 0);
      scoredOn := [];
    }

    function State(): Session
      reads this
    {
      Session(dome, lastSpawn, scoredOn)
    }

    /** `on_turn`: a fresh game state for the host's turn, then `starter_strategy`. */
    method OnTurn(h: Host) returns (attempts: seq<Action>)
      modifies this`dome, this`lastSpawn
      ensures var r := Turn(h, [], old(State()));
              attempts == r.attempts && State() == r.session
    {
      var gs := new TurnState(h);
      StarterStrategy(gs);
      attempts := gs.trace;
    }

    method StarterStrategy(gs: TurnState)
      modifies gs, this`dome, this`lastSpawn
      ensures var r := Turn(gs.host, old(gs.trace), old(State()));
              gs.trace == old(gs.trace) + r.attempts && State() == r.session
    {
      ghost var s := State();
      ghost var h := gs.host;
      ghost var t := gs.trace;
      Offence(gs);
      ghost var off := OffenceStep(h, t, s);
      Defence(gs);
      ghost var d := DefenceAttempts(h, t + off.attempts, off.last, s.scoredOn);
      HealthCheck(gs);
      ghost var m := ModeStep(s.dome, h.myHealth, h.enemyHealth);
      ghost var tail := if m.clear then Sweep(ARENA_SIZE * ARENA_SIZE) else [];
      assert Turn(h, t, s) == TurnResult(off.attempts + d + tail, Session(m.dome, off.last, s.scoredOn));
      assert gs.trace == t + off.attempts + d + tail;
      AppendAssoc(t, off.attempts, d);
      AppendAssoc(t, off.attempts + d, tail);
    }

    /** The middle of `starter_strategy`: reactive defence, the supports, then `layer1`. */
    method Defence(gs: TurnState)
      modifies gs
      ensures gs.trace == old(gs.trace) + DefenceAttempts(gs.host, old(gs.trace), lastSpawn, scoredOn)
    {
      ghost var h := gs.host;
      ghost var t := gs.trace;
      BuildReactiveDefense(gs);
      ghost var react := ReactiveAttempts(h, t, lastSpawn, Reverse(scoredOn));
      SetSupports(gs);
      SetSupports1(gs);
      ghost var sup1, sup2 := SupportAttempts(SUPPORTS, true), SupportAttempts([SUPPORT_EXTRA], h.turn > 0);
      AppendAssoc(t + react, sup1, sup2);
      Layer1(gs);
      ghost var layer := Layer1Attempts(h, t + react + (sup1 + sup2), lastSpawn);
      AppendAssoc(t, react, sup1 + sup2);
      AppendAssoc(t, react + (sup1 + sup2), layer);
    }

    /** The tail of `starter_strategy`: the emergency and recovery tests, each clearing the board. */
    method HealthCheck(gs: TurnState)
      modifies gs, this`dome
      ensures var m := ModeStep(old(dome), gs.host.myHealth, gs.host.enemyHealth);
              && dome == m.dome
              && gs.trace == old(gs.trace) + (if m.clear then Sweep(ARENA_SIZE * ARENA_SIZE) else [])
    {
      var my, enemy := gs.host.myHealth, gs.host.enemyHealth;
      if (enemy - my > 8.0 && my < 16.0) || enemy < 6.0 || my < 11.0 {
        RemoveAll(gs);
        dome := true;
      } else if my - enemy > 7.0 && dome {
        dome := false;
        RemoveAll(gs);
      } else {
        AppendEmpty(gs.trace);
      }
    }

    /** The head of `starter_strategy`: the dome-mode diagonal, or scouts on the cadence's turns. */
    method Offence(gs: TurnState)
      modifies gs, this`lastSpawn
      ensures var st := OffenceStep(gs.host, old(gs.trace), old(State()));
              gs.trace == old(gs.trace) + st.attempts && lastSpawn == st.last
    {
      if dome {
        var l := DOME_OPTIONS;
        var a, evaluated := LeastDamage(gs.Board(), l);
        if a.loc == Cell(13, 0) {
          SuicidalScouts(gs);
        } else {
          SuicidalScouts1(gs);
        }
      } else if gs.host.turn < 10 {
        SendScouts(gs);
      } else if gs.host.turn < 15 {
        if gs.host.turn % 2 == 1 {
          SendScouts(gs);
        }
      } else if gs.host.turn < 30 {
        if gs.host.turn % 3 == 1 {
          SendScouts(gs);
        }
      } else {
        if gs.host.turn % 4 == 1 {
          SendScouts(gs);
        }
      }
    }

    /** `attempt_spwan_remove`: true exactly when the spawn placed a unit, which is then removed again. */
    method AttemptSpawnRemove(gs: TurnState, unit: UnitKind, c: Cell) returns (ok: bool)
      modifies gs
      ensures gs.trace == old(gs.trace) + SpawnRemoveAttempts(gs.host, old(gs.trace), unit, c)
      ensures ok <==> gs.host.placed(old(gs.trace), Spawn(unit, [c], 1)) > 0
    {
      var n := gs.Attempt(Spawn(unit, [c], 1));
      if n > 0 {
        n := gs.Attempt(Remove([c]));
        return true;
      }
      return false;
    }

    /** `set_supports`: a support at each location, each upgraded at once. */
    method SetSupports(gs: TurnState)
      modifies gs
      ensures gs.trace == old(gs.trace) + SupportAttempts(SUPPORTS, true)
    {
      SupportLoop(gs, SUPPORTS, true);
    }

    /** `set_supports1`: a support at `[3,10]`, upgraded from turn 1 on. */
    method SetSupports1(gs: TurnState)
      modifies gs
      ensures gs.trace == old(gs.trace) + SupportAttempts([SUPPORT_EXTRA], gs.host.turn > 0)
    {
      SupportLoop(gs, [SUPPORT_EXTRA], gs.host.turn > 0);
    }

    /** The loop both support routines run: spawn a support, then upgrade it when asked. */
    method SupportLoop(gs: TurnState, cells: seq<Cell>, upgrade: bool)
      modifies gs
      ensures gs.trace == old(gs.trace) + SupportAttempts(cells, upgrade)
    {
      ghost var goal := gs.trace + SupportAttempts(cells, upgrade);
      var rest := cells;
      while rest != []
        invariant goal == gs.trace + SupportAttempts(rest, upgrade)
        decreases |rest|
      {
        ghost var t := gs.trace;
        ghost var later := SupportAttempts(rest[1..], upgrade);
        var n := gs.Attempt(Spawn(Support, [rest[0]], 1));
        if upgrade {
          n := gs.Attempt(Upgrade([rest[0]]));
          AppendAssoc(t, [Spawn(Support, [rest[0]], 1)], [Upgrade([rest[0]])]);
          AppendAssoc(t, [Spawn(Support, [rest[0]], 1)] + [Upgrade([rest[0]])], later);
        } else {
          AppendEmpty([Spawn(Support, [rest[0]], 1)]);
          AppendAssoc(t, [Spawn(Support, [rest[0]], 1)], later);
        }
        rest := rest[1..];
      }
    }

    /** `layer1`: its two budget-gated loops, the second with spawn-and-remove. */
    method Layer1(gs: TurnState)
      modifies gs
      ensures gs.trace == old(gs.trace) + Layer1Attempts(gs.host, old(gs.trace), lastSpawn)
    {
      ghost var t := gs.trace;
      LayerLoop(gs, LAYER_OUTER, false);
      ghost var outer := LayerAttempts(gs.host, t, lastSpawn, LAYER_OUTER, false);
      LayerLoop(gs, LAYER_INNER, true);
      AppendAssoc(t, outer, LayerAttempts(gs.host, t + outer, lastSpawn, LAYER_INNER, true));
    }

    /** One loop of `layer1`: stop when the budget check fails, otherwise place the entry. */
    method LayerLoop(gs: TurnState, cells: seq<Cell>, removeAfter: bool)
      modifies gs
      ensures gs.trace == old(gs.trace) + LayerAttempts(gs.host, old(gs.trace), lastSpawn, cells, removeAfter)
    {
      var h := gs.host;
      ghost var job := Layering(lastSpawn, removeAfter);
      ghost var goal := gs.trace + GatedWalk(h, gs.trace, cells, job);
      var rest := cells;
      while rest != []
        invariant goal == gs.trace + GatedWalk(h, gs.trace, rest, job)
        decreases |rest|
      {
        if gs.Mp() < h.turretMpCost {
          break;
        }
        ghost var t := gs.trace;
        WalkStep(h, t, rest, job);
        LayerEntry(gs, rest[0], removeAfter);
        AppendAssoc(t, JobAttempts(h, job, t, rest[0]), GatedWalk(h, gs.trace, rest[1..], job));
        rest := rest[1..];
      }
      WalkHalt(h, gs.trace, rest, job);
    }

    /** The body of a `layer1` loop: reinforce an empty cell after turn 0, then its turret. */
    method LayerEntry(gs: TurnState, c: Cell, removeAfter: bool)
      modifies gs
      ensures gs.trace == old(gs.trace) + LayerEntryAttempts(gs.host, old(gs.trace), lastSpawn, c, removeAfter)
    {
      ghost var t := gs.trace;
      ghost var re := if gs.host.turn > 0 && !gs.Board().occupied(c) then ReinforceAttempts(gs.host, t, lastSpawn, c) else [];
      if gs.host.turn > 0 && !gs.Board().occupied(c) {
        Reinforce(gs, c);
      } else {
        assert t + re == t;
      }
      ghost var t' := gs.trace;
      if removeAfter {
        var ok := AttemptSpawnRemove(gs, Turret, c);
        AppendAssoc(t, re, SpawnRemoveAttempts(gs.host, t', Turret, c));
      } else {
        var n := gs.Attempt(Spawn(Turret, [c], 1));
        AppendAssoc(t, re, [Spawn(Turret, [c], 1)]);
      }
    }

    /** `build_reactive_defense`: the breaches newest first, while the budget lasts. */
    method BuildReactiveDefense(gs: TurnState)
      modifies gs
      ensures gs.trace == old(gs.trace) + ReactiveAttempts(gs.host, old(gs.trace), lastSpawn, Reverse(scoredOn))
    {
      var h := gs.host;
      ghost var job := Reinforcing(lastSpawn);
      var l := Reverse(scoredOn);
      ghost var goal := gs.trace + GatedWalk(h, gs.trace, l, job);
      var rest := l;
      while rest != []
        invariant goal == gs.trace + GatedWalk(h, gs.trace, rest, job)
        decreases |rest|
      {
        if gs.Mp() < h.turretMpCost {
          WalkHalt(h, gs.trace, rest, job);
          return;
        }
        ghost var t := gs.trace;
        WalkStep(h, t, rest, job);
        Reinforce(gs, rest[0]);
        AppendAssoc(t, JobAttempts(h, job, t, rest[0]), GatedWalk(h, gs.trace, rest[1..], job));
        rest := rest[1..];
      }
      WalkHalt(h, gs.trace, rest, job);
    }

    /** `reinforce_location`: derive the neighbours, then the budget-gated fill off the own egress path. */
    method Reinforce(gs: TurnState, loc: Cell)
      modifies gs
      ensures gs.trace == old(gs.trace) + ReinforceAttempts(gs.host, old(gs.trace), lastSpawn, loc)
    {
      var i, j := loc.x, loc.y;
      if 2 < i < 14 {
        i := i + 2;
      } else if i < 25 {
        i := i - 2;
      }
      if j < 5 {
        j := 5;
      } else if j < 10 {
        j := j + 2;
      }
      var neigh := [Cell(i, j + 2), Cell(i + 2, j)];
      if i > 13 {
        neigh := [Cell(i, j + 2), Cell(i - 2, j)];
      }
      if 9 <= i <= 17 {
        neigh := neigh + [Cell(i, j - 1)];
      }
      neigh := neigh + [Cell(i, j)];
      assert neigh == Neighbours(loc);
      var h := gs.host;
      var path := gs.Board().pathFrom(lastSpawn);
      if path.Some? && path.value != [] {
        ghost var goal := gs.trace + FillAttempts(h, gs.trace, neigh, path.value);
        var rest := neigh;
        while rest != []
          invariant goal == gs.trace + FillAttempts(h, gs.trace, rest, path.value)
          decreases |rest|
        {
          if gs.Mp() < h.turretMpCost {
            break;
          }
          if rest[0] !in path.value {
            ghost var t := gs.trace;
            var n := gs.Attempt(Spawn(Turret, [rest[0]], 1));
            AppendAssoc(t, [Spawn(Turret, [rest[0]], 1)], FillAttempts(h, gs.trace, rest[1..], path.value));
          }
          rest := rest[1..];
        }
      }
    }

    /** `send_scouts`. */
    method SendScouts(gs: TurnState)
      modifies gs, this`lastSpawn
      ensures var st := SendScoutsStep(gs.host, old(gs.trace), old(lastSpawn));
              gs.trace == old(gs.trace) + st.attempts && lastSpawn == st.last
    {
      var options := Reverse(SCOUT_OPTIONS);
      var best, evaluated := LeastDamage(gs.Board(), options);
      var x := gs.Attempt(Spawn(Scout, [best.loc], 1000));
      if x > 0 {
        lastSpawn := best.loc;
      }
    }

    /** `sucidal_scouts`: the left diagonal, then scouts at `[14,0]` and `[15,1]`. */
    method SuicidalScouts(gs: TurnState)
      modifies gs, this`lastSpawn
      ensures var st := SuicidalStep(gs.host, old(gs.trace), old(lastSpawn), LEFT_CHAIN, Cell(14, 0), Cell(15, 1));
              gs.trace == old(gs.trace) + st.attempts && lastSpawn == st.last
    {
      ghost var t0 := gs.trace;
      var l := LEFT_CHAIN;
      var n := gs.Attempt(Spawn(Support, l, 1));
      n := gs.Attempt(Upgrade(l));
      assert gs.trace == t0 + [Spawn(Support, l, 1), Upgrade(l)];
      var x := gs.Attempt(Spawn(Scout, [Cell(14, 0)], 1000));
      if x > 0 {
        lastSpawn := Cell(14, 0);
      }
      x := gs.Attempt(Spawn(Scout, [Cell(15, 1)], 1000));
      if x > 0 {
        lastSpawn := Cell(15, 1);
      }
      assert gs.trace == t0 + [Spawn(Support, l, 1), Upgrade(l), Spawn(Scout, [Cell(14, 0)], 1000), Spawn(Scout, [Cell(15, 1)], 1000)];
    }

    /** `sucidal_scouts1`: the right diagonal, then scouts at `[13,0]` and `[12,1]`. */
    method SuicidalScouts1(gs: TurnState)
      modifies gs, this`lastSpawn
      ensures var st := SuicidalStep(gs.host, old(gs.trace), old(lastSpawn), RIGHT_CHAIN, Cell(13, 0), Cell(12, 1));
              gs.trace == old(gs.trace) + st.attempts && lastSpawn == st.last
    {
      ghost var t0 := gs.trace;
      var l := RIGHT_CHAIN;
      var n := gs.Attempt(Spawn(Support, l, 1));
      n := gs.Attempt(Upgrade(l));
      assert gs.trace == t0 + [Spawn(Support, l, 1), Upgrade(l)];
      var x := gs.Attempt(Spawn(Scout, [Cell(13, 0)], 1000));
      if x > 0 {
        lastSpawn := Cell(13, 0);
      }
      x := gs.Attempt(Spawn(Scout, [Cell(12, 1)], 1000));
      if x > 0 {
        lastSpawn := Cell(12, 1);
      }
      assert gs.trace == t0 + [Spawn(Support, l, 1), Upgrade(l), Spawn(Scout, [Cell(13, 0)], 1000), Spawn(Scout, [Cell(12, 1)], 1000)];
    }

    /** `remove_all`: a removal attempt at every cell, column by column. */
    method RemoveAll(gs: TurnState)
      modifies gs
      ensures gs.trace == old(gs.trace) + Sweep(ARENA_SIZE * ARENA_SIZE)
    {
      var i := 0;
      while i < ARENA_SIZE
        invariant 0 <= i <= ARENA_SIZE
        invariant gs.trace == old(gs.trace) + Sweep(ARENA_SIZE * i)
      {
        var j := 0;
        while j < ARENA_SIZE
          invariant 0 <= j <= ARENA_SIZE
          invariant gs.trace == old(gs.trace) + Sweep(ARENA_SIZE * i + j)
        {
          var n := gs.Attempt(Remove([Cell(i, j)]));
          assert (ARENA_SIZE * i + j) / ARENA_SIZE == i && (ARENA_SIZE * i + j) % ARENA_SIZE == j;
          assert Sweep(ARENA_SIZE * i + j + 1) == Sweep(ARENA_SIZE * i + j) + [Remove([Cell(i, j)])];
          j := j + 1;
        }
        i := i + 1;
      }
    }

    /** `on_action_frame`: record the opponent's breaches of the frame, in order. */
    method OnActionFrame(events: seq<BreachEvent>)
      modifies this`scoredOn
      ensures scoredOn == old(scoredOn) + OpponentBreaches(events)
    {
      var k := 0;
      while k < |events|
        invariant 0 <= k <= |events|
        invariant scoredOn == old(scoredOn) + OpponentBreaches(events[..k])
      {
        if events[k].owner != 1 {
          scoredOn := scoredOn + [events[k].location];
        }
        assert events[..k + 1][..k] == events[..k];
        k := k + 1;
      }
      assert events[..k] == events;
    }
  }
}
