/**
 * The game the strategy plays, as the strategy sees it: grid cells, unit
 * archetypes, the attempts it issues to the host, and the host itself as a
 * bundle of oracles. Every oracle answers as a function of the attempts the
 * strategy has issued so far this turn, because the host updates its board
 * and its resource pool as spawns, upgrades and removals go through.
 */
module Game {

  datatype Option<T> = None | Some(value: T)

  /** A grid coordinate `[x, y]`. */
  datatype Cell = Cell(x: int, y: int)

  /** The six unit archetypes read from the configuration at game start. */
  datatype UnitKind = Wall | Support | Turret | Scout | Demolisher | Interceptor

  /** A defending structure able to hit a cell: its archetype and `damage_i`. */
  datatype Attacker = Attacker(kind: UnitKind, damage: real)

  /**
   * One call into the host, as recorded in the turn's trace:
   * `attempt_spawn(kind, at, num)`, `attempt_upgrade(at)` and `attempt_remove(at)`.
   */
  datatype Action =
    | Spawn(kind: UnitKind, at: seq<Cell>, num: nat)
    | Upgrade(at: seq<Cell>)
    | Remove(at: seq<Cell>)

  /** What the host's board answers at one moment of the turn. */
  datatype Snapshot = Snapshot(
    pathFrom: Cell -> Option<seq<Cell>>,   // find_path_to_edge
    attackersAt: Cell -> seq<Attacker>,    // get_attackers(cell, 0)
    occupied: Cell -> bool,                // len(game_map[x, y]) != 0
    upgradedTurret: Cell -> bool)          // an upgraded turret stands there

  /** The host for one turn. */
  datatype Host = Host(
    turn: int,                             // turn_number
    myHealth: real,
    enemyHealth: real,
    turretMpCost: real,                    // type_cost(TURRET)[MP]
    turretDamage: real,                    // GameUnit(TURRET, config).damage_i
    inArena: Cell -> bool,                 // game_map.in_arena_bounds
    board: seq<Action> -> Snapshot,        // the board after the given attempts
    mp: seq<Action> -> real,               // get_resource(MP) after the given attempts
    placed: (seq<Action>, Action) -> nat)  // how many units an attempt places

  /** The result of a least-risk selection. */
  datatype Selection =
    | Unchanged(options: seq<Cell>)        // the option list handed back as it came
    | NoPick                               // `None`
    | Pick(loc: Cell, risk: real)          // `(location, damage)`

  /** The budget check in front of turret placements: `not (get_resource(MP) < type_cost(TURRET)[MP])`. */
  predicate Affordable(h: Host, t: seq<Action>)
  {
    h.mp(t) >= h.turretMpCost
  }

  /** The host's game state for one turn: its oracles and the attempts issued so far. */
  class TurnState {
    const host: Host
    var trace: seq<Action>

    constructor (host: Host)
      ensures this.host == host && trace == []
    {
      this.host := host;
      trace := [];
    }

    /** The board as the host shows it now. */
    function Board(): Snapshot
      reads this
    {
      host.board(trace)
    }

    /** `get_resource(MP)` now. */
    function Mp(): real
      reads this
    {
      host.mp(trace)
    }

    /** Issues one attempt; the host answers with the number of units it placed. */
    method Attempt(a: Action) returns (n: nat)
      modifies this
      ensures trace == old(trace) + [a]
      ensures n == host.placed(old(trace), a)
    {
      n := host.placed(trace, a);
      trace := trace + [a];
    }
  }
}
