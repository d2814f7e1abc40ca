/** Game entities the two bots work with, and the board seen as a set of
    oracle tables.  The board's own algorithms (legal-move generation, fence
    validity, path search) are not modelled: the tables hold their answers
    for the current position. */
module Quoridor {

  datatype Option<T> = None | Some(value: T)

  /** A grid cell. */
  datatype Coord = Coord(col: int, row: int)

  datatype Direction = Horizontal | Vertical

  /** A candidate wall segment, identified by its anchor cell and orientation. */
  datatype FencePlacing = FencePlacing(coord: Coord, direction: Direction)

  datatype PawnMove = PawnMove(fromCoord: Coord, toCoord: Coord)

  /** What a bot returns for its turn. */
  datatype Action = Move(pawnMove: PawnMove) | Place(fencePlacing: FencePlacing)

  /** A shortest route, reduced to the one thing the bots use: its first move. */
  datatype Route = Route(firstMove: PawnMove)

  /** The items of a per-player path-length change dictionary, in iteration
      order: (player name, new length - old length). */
  type Impact = seq<(string, int)>

  /** Python exceptions that escape from a bot's turn. */
  datatype Error = KeyError | IndexError

  datatype Result<T> = Ok(value: T) | Raised(error: Error)

  /** The acting bot: its name, its pawn's cell, the fences it has left and
      its goal cells. */
  datatype Bot = Bot(name: string, pawnCoord: Coord, remainingFences: nat, endPositions: set<Coord>)

  /** No player name appears twice in an impact. */
  predicate DistinctNames(impact: Impact)
  {
    forall i, j :: 0 <= i < j < |impact| ==> impact[i].0 != impact[j].0
  }

  /** The board as the bots query it.
      - storedValidPawnMoves: legal pawn moves per cell;
      - storedValidFencePlacings: legal fence placings, in board order;
      - blocking: the placings that would cut some player off from its goal;
      - impacts: the path-length changes of each placing whose impact
        computation succeeds (a placing absent here makes it raise);
      - routes: the A* answer per (start, goals); absent means no route. */
  datatype Board = Board(
    storedValidPawnMoves: map<Coord, seq<PawnMove>>,
    storedValidFencePlacings: seq<FencePlacing>,
    blocking: set<FencePlacing>,
    impacts: map<FencePlacing, Impact>,
    routes: map<(Coord, set<Coord>), Route>)
  {
    predicate IsFencePlacingBlocking(f: FencePlacing)
    {
      f in blocking
    }

    function FencePlacingImpactOnPaths(f: FencePlacing): Option<Impact>
    {
      if f in impacts then Some(impacts[f]) else None
    }

    function AStar(start: Coord, goals: set<Coord>): Option<Route>
    {
      if (start, goals) in routes then Some(routes[(start, goals)]) else None
    }

    /** What the board promises about its impact oracle: it refuses (raises
        for) every blocking placing, and no player appears twice in an impact. */
    ghost predicate Valid()
    {
      forall f :: f in impacts ==> f !in blocking && DistinctNames(impacts[f])
    }
  }
}
