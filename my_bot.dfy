/** The path-following bot: now and then a random non-blocking fence,
    otherwise the first move of an A* route. */
module MyBot {
  import opened Quoridor
  import opened RandomSource
  import opened BotCommon

  /** The movement half of a turn: the first move of the A* route to the
      goal cells, or a random legal pawn move when there is no route.  Returns
      the action and the next unused draw number. */
  function FollowPath(bot: Bot, board: Board, draws: Draws, k: nat): (r: (Result<Action>, nat))
    ensures r.0.Ok? ==> r.0.value.Move?
    ensures board.AStar(bot.pawnCoord, bot.endPositions).None? ==>
      r.0 == RandomPawnMove(bot, board, draws, k) && r.1 == k + 1
    ensures board.AStar(bot.pawnCoord, bot.endPositions).None? && r.0.Ok? ==>
      r.0.value.pawnMove in board.storedValidPawnMoves[bot.pawnCoord]
    ensures board.AStar(bot.pawnCoord, bot.endPositions).Some? ==>
      r == (Ok(Move(board.AStar(bot.pawnCoord, bot.endPositions).value.firstMove)), k)
  {
    match board.AStar(bot.pawnCoord, bot.endPositions)
    case None => (RandomPawnMove(bot, board, draws, k), k + 1)
    case Some(path) => (Ok(Move(path.firstMove)), k)
  }

  /** One turn, drawing from `draws` starting at draw number k; `next` is the
      first draw number left unused. */
  method Play(bot: Bot, board: Board, draws: Draws, k: nat) returns (r: Result<Action>, next: nat)
    // a fence is only ever played behind the one-in-three guard ...
    ensures r.Ok? && r.value.Place? ==> FenceAttempted(bot, board, draws, k)
    // ... and it is a legal, non-blocking placing
    ensures r.Ok? && r.value.Place? ==>
      r.value.fencePlacing in board.storedValidFencePlacings &&
      !board.IsFencePlacingBlocking(r.value.fencePlacing)
    // randint, at most six fence samples, at most one pawn-move draw
    ensures k + 1 <= next <= k + 8
    // outside the guard the bot follows its path
    ensures !FenceAttempted(bot, board, draws, k) ==> (r, next) == FollowPath(bot, board, draws, k + 1)
    // inside it, the first sample and up to five re-samples decide
    ensures FenceAttempted(bot, board, draws, k) ==>
      var fences := board.storedValidFencePlacings;
      var s := Resample(fences, board.blocking, draws, k + 2, Choice(fences, draws, k + 1), 5);
      if s.attemptsLeft > 0 then r == Ok(Place(s.fence)) && next == s.next
      else (r, next) == FollowPath(bot, board, draws, s.next)
  {
    next := k + 1;
    if RandInt(0, 2, draws, k) == 0 && bot.remainingFences > 0 && |board.storedValidFencePlacings| > 0 {
      var fences := board.storedValidFencePlacings;
      var randomFencePlacing := Choice(fences, draws, next);
      next := next + 1;
      var attempts := 5;
      ghost var outcome := Resample(fences, board.blocking, draws, next, randomFencePlacing, attempts);
      while board.IsFencePlacingBlocking(randomFencePlacing) && attempts > 0
        invariant attempts <= 5 && next == k + 7 - attempts
        invariant Resample(fences, board.blocking, draws, next, randomFencePlacing, attempts) == outcome
        decreases attempts
      {
        randomFencePlacing := Choice(fences, draws, next);
        next := next + 1;
        attempts := attempts - 1;
      }
      assert outcome == Sample(randomFencePlacing, next, attempts);
      ResampleSpendsOneDrawPerAttempt(fences, board.blocking, draws, k + 2, Choice(fences, draws, k + 1), 5);
      if attempts > 0 {
        return Ok(Place(randomFencePlacing)), next;
      }
    }
    var (action, after) := FollowPath(bot, board, draws, next);
    r, next := action, after;
  }
}
