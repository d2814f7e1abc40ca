# Quoridor bots: fence and move choice

This project models, in Dafny, the per-turn decision of the two bots of a
Quoridor game (`src/player/RandomBot.py` and `src/player/MyBot.py`), and proves
what those decisions promise.

- **RandomBot**, the impact-maximising bot. On one draw in three, if it still has
  fences and some placing is legal, it runs `placeFenceRandomly`. That scores
  every legal fence placing whose path-impact computation succeeds. The score is
  the *global impact*: the opponents' path-length changes minus the bot's own.
  Each placing then gets a one-ply score, its impact minus the smallest impact
  among the other placings (or minus 0 when it is the only one). The first
  placing with the best one-ply score is played when that score is positive.
  Otherwise up to ten re-samples look for a non-blocking placing, and failing
  that the bot makes a random pawn move. Outside the one-in-three guard it makes
  a random pawn move.
- **MyBot**, the path-following bot. Behind the same guard it samples a placing
  and re-samples up to five times while the sample is blocking. It plays the
  sample only if it still has attempts left. Otherwise it plays the first move of
  the A* route to its goal row, or a random legal pawn move when there is no
  route.

The board is a value made of oracle tables (`Quoridor.Board`): legal pawn moves
per cell, the list of legal fence placings, the set of blocking placings, the
per-player impact of each placing whose computation succeeds, and the A* answer
per (start, goals). `Board.Valid()` is what the board promises about them: a
placing whose impact is computed is not blocking, and no player appears twice
in an impact. Python's `random` module is an injected stream `draws: nat -> nat`.
The k-th random call of a turn reads `draws(k)`, and every operation returns the
first draw number it left unused, so sample counts can be stated. Python
dictionaries that keep insertion order are `OrderedDicts.Dict`: a key list plus a
map. Exceptions that escape a turn are `Result.Raised(KeyError | IndexError)`.

Two things the code does are proved as written, each with a concrete input:

- Both re-sampling loops stop when the counter reaches 0 even if the last sample
  drawn is not blocking. That sample is then dropped, and the bot moves its pawn.
  "Play a non-blocking fence if one is found within the budget" is not what the
  code does, and the model follows the code. There is one example per loop:
  `BotCommon.ExhaustedOnNonBlockingSample` for MyBot and
  `RandomBot.FallbackDropsLastNonBlockingSample` for RandomBot.
- The maximising branch never asks whether its choice is blocking. It relies on
  the impact computation raising for blocking placings. So "the fence played is
  non-blocking" is proved under `Board.Valid()`, and
  `RandomBot.MaximiserPlaysBlockingWhenOracleAnswers` shows a board breaking
  that contract on which a blocking placing is played.

## Model

| member | source | states |
|---|---|---|
| Quoridor.Board.IsFencePlacingBlocking | src/player/MyBot.py:25 | the oracle for `board.isFencePlacingBlocking(f)`: f is one of the board's blocking placings (definition, no contract) |
| Quoridor.Board.FencePlacingImpactOnPaths | src/player/RandomBot.py:26 | the oracle for `board.getFencePlacingImpactOnPaths(f)`: the per-player path changes of f, or None where the call raises (definition, no contract) |
| Quoridor.Board.AStar | src/player/MyBot.py:32 | the oracle for `Path.AStar(board, start, goals)`: the route stored for (start, goals), or None (definition, no contract) |
| RandomSource.Choice | src/player/RandomBot.py:19 | `random.choice` returns an element of the list it is given |
| RandomSource.RandInt | src/player/RandomBot.py:68 | `random.randint(lo, hi)` returns a value between lo and hi inclusive |
| OrderedDicts.EmptyDict | src/player/RandomBot.py:23 | `{}` is a well-formed dictionary with no keys |
| OrderedDicts.Dict.Insert | src/player/RandomBot.py:34 | `d[k] = v` keeps the dictionary well formed, sets k to v, appends a new key at the end and leaves an existing key where it was |
| BotCommon.RandomPawnMove | src/player/RandomBot.py:17-19 | `moveRandomly`, which MyBot.py:35-36 inlines: the random pawn move succeeds exactly when the bot's cell has a non-empty move list, and is then a member of that list; a missing cell raises KeyError, an empty list IndexError |
| BotCommon.FenceAttempted | src/player/MyBot.py:22 | the one-in-three guard, the same at RandomBot.py:68: draw k of `randint(0, 2)` is 0, the bot has fences left, and some placing is legal (definition, no contract) |
| BotCommon.Resample | src/player/MyBot.py:25-27 | the loop `while blocking(f) and attempts > 0: f = choice(fences); attempts -= 1`, the same at RandomBot.py:58-60: keeps drawing while the sample blocks and attempts remain, returning the kept sample, the next draw number and the attempts left (definition, no contract) |
| BotCommon.ResampleSpendsOneDrawPerAttempt | src/player/MyBot.py:23-27 | the re-sampling loop uses at most its attempt budget and exactly one draw per attempt; a sample kept with attempts left is not blocking; the kept fence is the first sample or a drawn placing |
| BotCommon.ResampleStopsAtFirstNonBlocking | src/player/MyBot.py:25-27 | the loop keeps the first non-blocking sample: every earlier sample was blocking, and the kept one is the last drawn, or blocking only if the attempts ran out |
| BotCommon.ExhaustedOnNonBlockingSample | src/player/MyBot.py:25-29 | a concrete input where the fifth re-sample is non-blocking but no attempt is left, so `attempts > 0` fails and the fence is dropped |
| MyBot.FollowPath | src/player/MyBot.py:31-37 | with no A* route the result is the random pawn move, a member of the cell's legal moves; with a route it is the route's first move; either way a pawn move |
| MyBot.Play | src/player/MyBot.py:20-37 | a fence is played only behind the guard (draw 0, fences left, placings non-empty) and is a legal non-blocking placing; a turn uses between 1 and 8 draws (at most 6 fence samples); the turn is the sampling loop's outcome when it ends with attempts left, and the path move otherwise, including when the last sample was non-blocking |
| RandomBot.Signed | src/player/RandomBot.py:33 | one entry's term: the bot's own change negated, an opponent's change as is (definition, no contract) |
| RandomBot.SignedSum | src/player/RandomBot.py:31-33 | `globalImpact` after the loop: the terms of all entries added up in order (definition, no contract) |
| RandomBot.GlobalImpact | src/player/RandomBot.py:31-34 | the loop accumulates the signed sum of the impact entries, each counted negatively for the bot's own name and positively otherwise |
| RandomBot.SignedSumCons | src/player/RandomBot.py:31-34 | the signed sum, accumulated from the last entry back, equals the first entry's signed contribution plus the signed sum of the rest |
| RandomBot.GlobalImpactIsOpponentsMinusOwn | src/player/RandomBot.py:31-34 | when no player appears twice in the impact, the global impact is the opponents' total change minus the bot's own change |
| RandomBot.ScoredImpacts | src/player/RandomBot.py:23-34 | the scored dictionary is well formed; a placing is scored exactly when it is a legal placing and its impact computation succeeds (a raising one never appears); its value is that placing's global impact |
| RandomBot.ScoredInBoardOrder | src/player/RandomBot.py:24-34 | when the board lists each placing once, the scored placings are the computable ones in board order |
| RandomBot.ScoreFencePlacings | src/player/RandomBot.py:23-34 | the scoring loop builds exactly the scored dictionary above |
| RandomBot.OtherImpacts | src/player/RandomBot.py:45 | `other_impacts`: the values of every key other than f, in dictionary order (definition, no contract) |
| RandomBot.OtherImpactsAreTheOthers | src/player/RandomBot.py:45 | the comprehension lists the impact of every other placing and nothing else |
| RandomBot.Min | src/player/RandomBot.py:46 | `min` of a non-empty list is an element of it, no larger than any element |
| RandomBot.OnePlyScore | src/player/RandomBot.py:45-47 | `minimax_scores[f]`: impact(f) minus `min(other_impacts)`, or minus 0 when there are no others (definition, no contract) |
| RandomBot.OnePlyScores | src/player/RandomBot.py:43-47 | the finished `minimax_scores`: every scored placing mapped to its one-ply score (definition, no contract) |
| RandomBot.OnePlyScoreAgainstWorstOther | src/player/RandomBot.py:43-47 | a sole candidate scores its own impact; otherwise the score is impact(f) − impact(g) for some other candidate g, and is at least impact(f) − impact(g) for every other g, so it is impact(f) − min over g≠f |
| RandomBot.MinimaxScores | src/player/RandomBot.py:41-47 | the loop gives every scored placing, in the same order, its one-ply score |
| RandomBot.ArgMaxIndex | src/player/RandomBot.py:48 | `max(..., key=...)` picks a key of largest value, and no earlier key has that value |
| RandomBot.BestFence | src/player/RandomBot.py:48 | `bestFence`: the key at the argmax index of the one-ply scores (definition, no contract) |
| RandomBot.BestFenceHasMaximalImpact | src/player/RandomBot.py:43-51 | with two candidates or more, the fence of best one-ply score is the first fence of largest global impact, and its score is the largest impact minus the smallest |
| RandomBot.BestScorePositiveIff | src/player/RandomBot.py:48-51 | the maximising branch returns a fence, for a sole candidate, exactly when its impact is positive; with two or more, exactly when the impacts are not all equal |
| RandomBot.TwoCandidateExample | src/player/RandomBot.py:41-51 | impacts 3 and 1 give scores 2 and −2, and the first placing is chosen |
| RandomBot.RandomFenceFallback | src/player/RandomBot.py:53-63 | the fallback block: a pawn move without legal placings; otherwise a first sample, `Resample` with 10 attempts, then the kept fence if attempts are left and a pawn move if not (definition, no contract) |
| RandomBot.RandomFenceFallbackSound | src/player/RandomBot.py:53-63 | no legal placing gives the pawn move; a fence returned is legal and non-blocking after at most 10 samples; anything else is the pawn move drawn last, even after a non-blocking last sample; at most 12 draws |
| RandomBot.FallbackDropsLastNonBlockingSample | src/player/RandomBot.py:56-62 | a concrete input where the tenth re-sample is non-blocking, the counter is 0, and the bot moves its pawn |
| RandomBot.FallbackFence | src/player/RandomBot.py:53-63 | the fallback block with its re-sampling loop computes the fallback outcome above |
| RandomBot.PlaceFenceOutcome | src/player/RandomBot.py:21-63 | the whole of `placeFenceRandomly`: `BestFence` when something is scored and its one-ply score is positive, `RandomFenceFallback` otherwise (definition, no contract) |
| RandomBot.MaximiserPlaysBlockingWhenOracleAnswers | src/player/RandomBot.py:48-51 | a concrete board whose impact oracle answers for a blocking placing, where that placing is played, showing the non-blocking guarantee rests on `Board.Valid()` |
| RandomBot.PlaceFenceOutcomeSound | src/player/RandomBot.py:21-63 | a fence placeFenceRandomly plays is a legal placing, and under the board's contract non-blocking; at most 12 draws |
| RandomBot.MaximisingBranchChoosesMaximalImpact | src/player/RandomBot.py:43-51 | with two or more scored placings whose impacts differ, the bot plays the first placing of largest global impact without drawing |
| RandomBot.EqualImpactsFallBack | src/player/RandomBot.py:48-55 | when no placing is scored, or two or more are scored with equal impacts, the random fallback decides |
| RandomBot.PlaceFenceRandomly | src/player/RandomBot.py:21-63 | the method computes the placeFenceRandomly outcome: best one-ply placing when positive, random fallback otherwise |
| RandomBot.Play | src/player/RandomBot.py:65-71 | behind the guard the turn is placeFenceRandomly's outcome, otherwise the random pawn move; a fence is played only behind the guard, is a legal placing, and under the board's contract is non-blocking |

## Left out

- `src/AlgorithmStats.py` is not part of this model. It counts calls, patches modules at run time and writes reports, with no bearing on which action is chosen.
- The board internals are not modelled. Legal pawn moves, legal fence placings, the blocking test, the impact computation and A* in `src.Path` become oracle tables of `Quoridor.Board`. Their source is not part of this model, so nothing is proved about shortest paths.
- A route is reduced to its first move (`Quoridor.Route`), the only part of it the bots use.
- RandomSource.Choice: does not model that `random.choice` is uniform. A draw reduced modulo the list length picks the index, which reaches every index but says nothing about probabilities.
- RandomSource.RandInt: does not model that `random.randint` is uniform, for the same reason.
- Exceptions other than the KeyError and IndexError of the random pawn move are not modelled. This covers any exception from the blocking test or from A*. An impact computation that raises is modelled as a placing absent from the impact table.
- The `IBot`/`IAction` classes are not modelled. Actions are the datatype `Move(pawnMove) | Place(fencePlacing)`, and `remainingFences()` is a field of `Bot`.
- The unused `impacts_values` list (`src/player/RandomBot.py:42`) is not modelled.
