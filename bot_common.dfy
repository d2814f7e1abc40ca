/** What both bots do the same way: the random pawn move, the one-in-three
    fence guard, and the loop that re-samples a fence while it is blocking. */
module BotCommon {
  import opened Quoridor
  import opened RandomSource

  /** RandomBot's `moveRandomly` (src/player/RandomBot.py:17-19), which MyBot
      inlines as its no-route fallback (src/player/MyBot.py:35-36): a uniformly
      drawn legal pawn move from the bot's cell.  Looking the cell up raises
      KeyError when it has no entry; drawing from an empty list raises
      IndexError. */
  function RandomPawnMove(bot: Bot, board: Board, draws: Draws, k: nat): (r: Result<Action>)
    ensures r.Ok? <==>
      bot.pawnCoord in board.storedValidPawnMoves && board.storedValidPawnMoves[bot.pawnCoord] != []
    ensures r.Ok? ==> r.value.Move? && r.value.pawnMove in board.storedValidPawnMoves[bot.pawnCoord]
    ensures bot.pawnCoord !in board.storedValidPawnMoves ==> r == Raised(KeyError)
    ensures bot.pawnCoord in board.storedValidPawnMoves && board.storedValidPawnMoves[bot.pawnCoord] == []
      ==> r == Raised(IndexError)
  {
    if bot.pawnCoord !in board.storedValidPawnMoves then Raised(KeyError)
    else
      var validPawnMoves := board.storedValidPawnMoves[bot.pawnCoord];
      if validPawnMoves == [] then Raised(IndexError)
      else Ok(Move(Choice(validPawnMoves, draws, k)))
  }

  /** The guard both bots evaluate first: draw number k of randint(0, 2) is 0,
      the bot still has fences, and some fence placing is legal. */
  predicate FenceAttempted(bot: Bot, board: Board, draws: Draws, k: nat)
  {
    RandInt(0, 2, draws, k) == 0 && bot.remainingFences > 0 && |board.storedValidFencePlacings| > 0
  }

  /** Where the loop `while isFencePlacingBlocking(f) and attempts > 0:
      f = choice(fences); attempts -= 1` ends, started on sample f with the
      next draw number k. */
  datatype Sample = Sample(fence: FencePlacing, next: nat, attemptsLeft: nat)

  function Resample(fences: seq<FencePlacing>, blocking: set<FencePlacing>, draws: Draws,
                    k: nat, f: FencePlacing, attempts: nat): Sample
    requires fences != []
    decreases attempts
  {
    if f in blocking && attempts > 0 then
      Resample(fences, blocking, draws, k + 1, Choice(fences, draws, k), attempts - 1)
    else
      Sample(f, k, attempts)
  }

  /** Each pass of the loop spends one attempt and one draw; a sample left
      with attempts to spare is not blocking; the kept fence is the first
      sample or one drawn from the placings. */
  lemma {:induction false} ResampleSpendsOneDrawPerAttempt(
    fences: seq<FencePlacing>, blocking: set<FencePlacing>, draws: Draws,
    k: nat, f: FencePlacing, attempts: nat)
    requires fences != []
    ensures var s := Resample(fences, blocking, draws, k, f, attempts);
      s.attemptsLeft <= attempts &&
      s.next == k + (attempts - s.attemptsLeft) &&
      (s.attemptsLeft > 0 ==> s.fence !in blocking) &&
      (s.fence == f || s.fence in fences)
    decreases attempts
  {
    if f in blocking && attempts > 0 {
      ResampleSpendsOneDrawPerAttempt(fences, blocking, draws, k + 1, Choice(fences, draws, k), attempts - 1);
    }
  }

  /** The loop keeps the first sample that is not blocking, or the last one
      drawn when the attempts run out: every sample before the kept one was
      blocking. */
  lemma {:induction false} ResampleStopsAtFirstNonBlocking(
    fences: seq<FencePlacing>, blocking: set<FencePlacing>, draws: Draws,
    k: nat, f: FencePlacing, attempts: nat)
    requires fences != []
    ensures var s := Resample(fences, blocking, draws, k, f, attempts);
      (s.next > k ==> f in blocking) &&
      (forall j :: k <= j < s.next - 1 ==> Choice(fences, draws, j) in blocking) &&
      (s.next == k ==> s.fence == f) &&
      (s.next > k ==> s.fence == Choice(fences, draws, s.next - 1)) &&
      (s.attemptsLeft == 0 || s.fence !in blocking)
    decreases attempts
  {
    ResampleSpendsOneDrawPerAttempt(fences, blocking, draws, k, f, attempts);
    if f in blocking && attempts > 0 {
      ResampleSpendsOneDrawPerAttempt(fences, blocking, draws, k + 1, Choice(fences, draws, k), attempts - 1);
      ResampleStopsAtFirstNonBlocking(fences, blocking, draws, k + 1, Choice(fences, draws, k), attempts - 1);
    }
  }

  /** The loop can exhaust its attempts on a sample that is not blocking: with
      placings [a, b] where only a blocks, five draws of a followed by a draw
      of b leave b as the last sample with no attempt left, so b is dropped. */
  lemma {:induction false} ExhaustedOnNonBlockingSample(a: FencePlacing, b: FencePlacing)
    requires a != b
    ensures var draws: Draws := j => if j == 6 then 1 else 0;
            var s := Resample([a, b], {a}, draws, 2, Choice([a, b], draws, 1), 5);
            s.attemptsLeft == 0 && s.fence == b && b !in {a}
  {
  }
}
