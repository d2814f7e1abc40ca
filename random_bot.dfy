/** The impact-maximising bot: it scores every fence placing by how much it
    lengthens the opponents' shortest paths against its own, and plays the one
    with the best one-ply score when that score is positive. */
module RandomBot {
  import opened Quoridor
  import opened RandomSource
  import opened OrderedDicts
  import opened BotCommon

  // ---------------------------------------------------------------- impact

  /** An entry's contribution to the global impact: the player's change
      counted against the bot when it is the bot's own, for it otherwise. */
  function Signed(me: string, entry: (string, int)): int
  {
    if entry.0 == me then -entry.1 else entry.1
  }

  /** The running total of the global-impact loop, over the entries in order. */
  function SignedSum(me: string, impact: Impact): int
    decreases |impact|
  {
    if impact == [] then 0 else SignedSum(me, impact[..|impact| - 1]) + Signed(me, impact[|impact| - 1])
  }

  /** Reference definitions: the opponents' changes added up, and the bot's own change. */
  function OpponentsTotal(me: string, impact: Impact): int
    decreases |impact|
  {
    if impact == [] then 0 else (if impact[0].0 != me then impact[0].1 else 0) + OpponentsTotal(me, impact[1..])
  }

  function OwnDelta(me: string, impact: Impact): int
    decreases |impact|
  {
    if impact == [] then 0 else if impact[0].0 == me then impact[0].1 else OwnDelta(me, impact[1..])
  }

  /** The global impact of one fence placing. */
  method GlobalImpact(me: string, impact: Impact) returns (globalImpact: int)
    ensures globalImpact == SignedSum(me, impact)
  {
    globalImpact := 0;
    for i := 0 to |impact|
      invariant globalImpact == SignedSum(me, impact[..i])
    {
      assert impact[..i + 1][..i] == impact[..i];
      globalImpact := globalImpact + Signed(me, impact[i]);
    }
    assert impact[..|impact|] == impact;
  }

  lemma {:induction false} SignedSumCons(me: string, e: (string, int), impact: Impact)
    ensures SignedSum(me, [e] + impact) == Signed(me, e) + SignedSum(me, impact)
    decreases |impact|
  {
    if impact != [] {
      var n := |impact|;
      assert ([e] + impact)[..n] == [e] + impact[..n - 1];
      SignedSumCons(me, e, impact[..n - 1]);
    }
  }

  lemma {:induction false} OwnDeltaAbsent(me: string, impact: Impact)
    requires forall i :: 0 <= i < |impact| ==> impact[i].0 != me
    ensures OwnDelta(me, impact) == 0
    decreases |impact|
  {
    if impact != [] {
      OwnDeltaAbsent(me, impact[1..]);
    }
  }

  /** When no player appears twice, the global impact is the sum of the
      opponents' changes minus the bot's own change. */
  lemma {:induction false} GlobalImpactIsOpponentsMinusOwn(me: string, impact: Impact)
    requires DistinctNames(impact)
    ensures SignedSum(me, impact) == OpponentsTotal(me, impact) - OwnDelta(me, impact)
    decreases |impact|
  {
    if impact != [] {
      var rest := impact[1..];
      assert impact == [impact[0]] + rest;
      SignedSumCons(me, impact[0], rest);
      assert DistinctNames(rest) by {
        forall i, j | 0 <= i < j < |rest| ensures rest[i].0 != rest[j].0 {
          assert rest[i] == impact[i + 1] && rest[j] == impact[j + 1];
        }
      }
      GlobalImpactIsOpponentsMinusOwn(me, rest);
      if impact[0].0 == me {
        assert forall i :: 0 <= i < |rest| ==> rest[i].0 != me by {
          forall i | 0 <= i < |rest| ensures rest[i].0 != me {
            assert rest[i] == impact[i + 1];
          }
        }
        OwnDeltaAbsent(me, rest);
      }
    }
  }

  // --------------------------------------------------------------- scoring

  /** The `fencePlacingImpacts` dictionary after the scoring loop has run
      over `fences`: placings whose impact computation raises are skipped. */
  function ScoredImpacts(me: string, board: Board, fences: seq<FencePlacing>): (d: Dict<FencePlacing>)
    ensures d.Valid()
    ensures forall f :: f in d.values <==> f in fences && f in board.impacts
    ensures forall f :: f in d.values ==> d.values[f] == SignedSum(me, board.impacts[f])
    decreases |fences|
  {
    if fences == [] then EmptyDict()
    else
      var d := ScoredImpacts(me, board, fences[..|fences| - 1]);
      var f := fences[|fences| - 1];
      match board.FencePlacingImpactOnPaths(f)
      case None => d
      case Some(impact) => d.Insert(f, SignedSum(me, impact))
  }

  /** The placings whose impact computation succeeds, in board order. */
  function Computable(board: Board, fences: seq<FencePlacing>): seq<FencePlacing>
    decreases |fences|
  {
    if fences == [] then []
    else (if fences[0] in board.impacts then [fences[0]] else []) + Computable(board, fences[1..])
  }

  lemma {:induction false} ComputableSnoc(board: Board, fences: seq<FencePlacing>)
    requires fences != []
    ensures var last := fences[|fences| - 1];
      Computable(board, fences)
      == Computable(board, fences[..|fences| - 1]) + (if last in board.impacts then [last] else [])
    decreases |fences|
  {
    var n := |fences|;
    var last := fences[n - 1];
    var tail := if last in board.impacts then [last] else [];
    var head := if fences[0] in board.impacts then [fences[0]] else [];
    if n == 1 {
      assert fences[..0] == [] && fences[1..] == [];
      assert fences[0] == last;
    } else {
      assert fences[1..][..n - 2] == fences[..n - 1][1..];
      assert fences[1..][n - 2] == last;
      ComputableSnoc(board, fences[1..]);
      assert fences[..n - 1][0] == fences[0];
      calc {
        Computable(board, fences);
        head + Computable(board, fences[1..]);
        head + (Computable(board, fences[..n - 1][1..]) + tail);
        (head + Computable(board, fences[..n - 1][1..])) + tail;
        Computable(board, fences[..n - 1]) + tail;
      }
    }
  }

  predicate NoDuplicates(fences: seq<FencePlacing>)
  {
    forall i, j :: 0 <= i < j < |fences| ==> fences[i] != fences[j]
  }

  /** When the board lists each placing once, the scored placings are the
      computable ones in board order; this is the candidate order the
      selection breaks ties by. */
  lemma {:induction false} ScoredInBoardOrder(me: string, board: Board, fences: seq<FencePlacing>)
    requires NoDuplicates(fences)
    ensures ScoredImpacts(me, board, fences).keys == Computable(board, fences)
    decreases |fences|
  {
    if fences != [] {
      var n := |fences|;
      var prefix := fences[..n - 1];
      assert NoDuplicates(prefix);
      ScoredInBoardOrder(me, board, prefix);
      ComputableSnoc(board, fences);
      assert fences[n - 1] !in prefix;
    }
  }

  /** The scoring loop of placeFenceRandomly. */
  method ScoreFencePlacings(bot: Bot, board: Board) returns (fencePlacingImpacts: Dict<FencePlacing>)
    ensures fencePlacingImpacts == ScoredImpacts(bot.name, board, board.storedValidFencePlacings)
  {
    fencePlacingImpacts := EmptyDict();
    var fences := board.storedValidFencePlacings;
    for i := 0 to |fences|
      invariant fencePlacingImpacts == ScoredImpacts(bot.name, board, fences[..i])
    {
      assert fences[..i + 1][..i] == fences[..i];
      var fencePlacing := fences[i];
      match board.FencePlacingImpactOnPaths(fencePlacing) {
        case None =>
        case Some(impact) =>
          var globalImpact := GlobalImpact(bot.name, impact);
          fencePlacingImpacts := fencePlacingImpacts.Insert(fencePlacing, globalImpact);
      }
    }
    assert fences[..|fences|] == fences;
  }

  // --------------------------------------------------------- one-ply score

  /** `[v for k, v in d.items() if k != f]`. */
  function OtherImpacts(keys: seq<FencePlacing>, values: map<FencePlacing, int>, f: FencePlacing): seq<int>
    requires forall g :: g in keys ==> g in values
    decreases |keys|
  {
    if keys == [] then []
    else (if keys[0] != f then [values[keys[0]]] else []) + OtherImpacts(keys[1..], values, f)
  }

  /** The list holds the impact of every key other than f, and nothing else. */
  lemma {:induction false} OtherImpactsAreTheOthers(keys: seq<FencePlacing>, values: map<FencePlacing, int>, f: FencePlacing)
    requires forall g :: g in keys ==> g in values
    ensures forall v :: v in OtherImpacts(keys, values, f) <==> exists g :: g in keys && g != f && values[g] == v
    decreases |keys|
  {
    if keys != [] {
      OtherImpactsAreTheOthers(keys[1..], values, f);
      assert forall g :: g in keys <==> g == keys[0] || g in keys[1..];
    }
  }

  /** Python's `min` of a non-empty list. */
  function Min(xs: seq<int>): (m: int)
    requires xs != []
    ensures m in xs
    ensures forall x :: x in xs ==> m <= x
    decreases |xs|
  {
    if |xs| == 1 then xs[0]
    else
      var rest := Min(xs[1..]);
      assert forall x :: x in xs ==> x == xs[0] || x in xs[1..];
      if xs[0] <= rest then xs[0] else rest
  }

  /** score(f) = impact(f) - min of the other candidates' impacts, or
      impact(f) - 0 when f is the only candidate. */
  function OnePlyScore(d: Dict<FencePlacing>, f: FencePlacing): int
    requires d.Valid() && f in d.values
  {
    var otherImpacts := OtherImpacts(d.keys, d.values, f);
    var minOther := if otherImpacts != [] then Min(otherImpacts) else 0;
    d.values[f] - minOther
  }

  /** The one-ply score measures f against the worst other candidate: it is
      impact(f) - impact(g) for some other candidate g, and no other candidate
      does worse; a sole candidate scores its own impact. */
  lemma OnePlyScoreAgainstWorstOther(d: Dict<FencePlacing>, f: FencePlacing)
    requires d.Valid() && f in d.values
    ensures |d.keys| == 1 ==> OnePlyScore(d, f) == d.values[f]
    ensures forall g :: g in d.values && g != f ==> OnePlyScore(d, f) >= d.values[f] - d.values[g]
    ensures |d.keys| >= 2 ==>
      exists g :: g in d.values && g != f && OnePlyScore(d, f) == d.values[f] - d.values[g]
  {
    var otherImpacts := OtherImpacts(d.keys, d.values, f);
    OtherImpactsAreTheOthers(d.keys, d.values, f);
    forall g | g in d.values && g != f ensures d.values[g] in otherImpacts {
      assert g in d.keys;
      assert exists g' :: g' in d.keys && g' != f && d.values[g'] == d.values[g];
    }
    if |d.keys| >= 2 {
      assert d.keys[0] != d.keys[1];
      var g := if d.keys[0] != f then d.keys[0] else d.keys[1];
      assert d.values[g] in otherImpacts;
    }
  }

  /** The `minimax_scores` dictionary as a map. */
  function OnePlyScores(d: Dict<FencePlacing>): map<FencePlacing, int>
    requires d.Valid()
  {
    map f | f in d.values :: OnePlyScore(d, f)
  }

  /** `minimax_scores` after the loop has run over the first n placings. */
  function ScoresUpTo(d: Dict<FencePlacing>, n: nat): Dict<FencePlacing>
    requires d.Valid() && n <= |d.keys|
  {
    Dict(d.keys[..n], map f | f in d.keys[..n] :: OnePlyScore(d, f))
  }

  lemma ScoresUpToStep(d: Dict<FencePlacing>, n: nat)
    requires d.Valid() && n < |d.keys|
    ensures ScoresUpTo(d, n).Valid()
    ensures ScoresUpTo(d, n + 1) == ScoresUpTo(d, n).Insert(d.keys[n], OnePlyScore(d, d.keys[n]))
  {
    var f := d.keys[n];
    assert d.keys[..n + 1] == d.keys[..n] + [f];
    assert f !in d.keys[..n];
  }

  lemma ScoresUpToAll(d: Dict<FencePlacing>)
    requires d.Valid()
    ensures ScoresUpTo(d, |d.keys|) == Dict(d.keys, OnePlyScores(d))
    ensures Dict(d.keys, OnePlyScores(d)).Valid()
  {
  }

  /** The loop that fills `minimax_scores`, in the order of `fencePlacingImpacts`. */
  method MinimaxScores(fencePlacingImpacts: Dict<FencePlacing>) returns (minimaxScores: Dict<FencePlacing>)
    requires fencePlacingImpacts.Valid()
    ensures minimaxScores.Valid()
    ensures minimaxScores.keys == fencePlacingImpacts.keys
    ensures minimaxScores.values == OnePlyScores(fencePlacingImpacts)
  {
    var d := fencePlacingImpacts;
    minimaxScores := EmptyDict();
    assert d.keys[..0] == [];
    for i := 0 to |d.keys|
      invariant minimaxScores == ScoresUpTo(d, i)
    {
      ScoresUpToStep(d, i);
      minimaxScores := minimaxScores.Insert(d.keys[i], OnePlyScore(d, d.keys[i]));
    }
    ScoresUpToAll(d);
  }

  // -------------------------------------------------------------- argmax

  /** `max(keys, key=values.get)`: the position of the first key whose value
      is the largest. */
  function ArgMaxIndex(keys: seq<FencePlacing>, values: map<FencePlacing, int>): (i: nat)
    requires keys != [] && forall g :: g in keys ==> g in values
    ensures i < |keys|
    ensures forall j :: 0 <= j < |keys| ==> values[keys[j]] <= values[keys[i]]
    ensures forall j :: 0 <= j < i ==> values[keys[j]] < values[keys[i]]
    decreases |keys|
  {
    if |keys| == 1 then 0
    else
      var n := |keys|;
      var i := ArgMaxIndex(keys[..n - 1], values);
      if values[keys[n - 1]] > values[keys[i]] then n - 1 else i
  }

  /** The fence placing with the best one-ply score. */
  function BestFence(d: Dict<FencePlacing>): FencePlacing
    requires d.Valid() && d.keys != []
  {
    d.keys[ArgMaxIndex(d.keys, OnePlyScores(d))]
  }

  lemma {:induction false} HasMinimum(keys: seq<FencePlacing>, values: map<FencePlacing, int>)
    returns (c: nat)
    requires keys != [] && forall g :: g in keys ==> g in values
    ensures c < |keys| && forall j :: 0 <= j < |keys| ==> values[keys[c]] <= values[keys[j]]
    decreases |keys|
  {
    if |keys| == 1 {
      c := 0;
    } else {
      var c' := HasMinimum(keys[1..], values);
      assert forall j :: 1 <= j < |keys| ==> keys[j] == keys[1..][j - 1];
      c := if values[keys[0]] <= values[keys[c' + 1]] then 0 else c' + 1;
    }
  }

  /** No score exceeds the candidate's impact minus the smallest impact. */
  lemma ScoreBoundedBySpread(d: Dict<FencePlacing>, f: FencePlacing, low: int)
    requires d.Valid() && f in d.values && |d.keys| >= 2
    requires forall g :: g in d.values ==> low <= d.values[g]
    ensures OnePlyScore(d, f) <= d.values[f] - low
  {
    OnePlyScoreAgainstWorstOther(d, f);
  }

  /** A candidate of largest impact scores exactly the spread between the
      largest and the smallest impact. */
  lemma TopScoresSpread(d: Dict<FencePlacing>, top: FencePlacing, low: FencePlacing)
    requires d.Valid() && |d.keys| >= 2 && top in d.values && low in d.values
    requires forall g :: g in d.values ==> d.values[low] <= d.values[g] <= d.values[top]
    ensures OnePlyScore(d, top) == d.values[top] - d.values[low]
  {
    OnePlyScoreAgainstWorstOther(d, top);
    if low == top {
      var g :| g in d.values && g != top && OnePlyScore(d, top) == d.values[top] - d.values[g];
    }
  }

  /** With two candidates or more, the best one-ply score goes to the first
      placing of maximal global impact, and it is the spread between the
      largest and the smallest impact. */
  lemma BestFenceHasMaximalImpact(d: Dict<FencePlacing>) returns (low: FencePlacing)
    requires d.Valid() && |d.keys| >= 2
    ensures BestFence(d) == d.keys[ArgMaxIndex(d.keys, d.values)]
    ensures forall g :: g in d.values ==> d.values[g] <= d.values[BestFence(d)]
    ensures low in d.values && forall g :: g in d.values ==> d.values[low] <= d.values[g]
    ensures OnePlyScores(d)[BestFence(d)] == d.values[BestFence(d)] - d.values[low]
  {
    var keys, impact, score := d.keys, d.values, OnePlyScores(d);
    var a := ArgMaxIndex(keys, impact);
    var b := ArgMaxIndex(keys, score);
    var c := HasMinimum(keys, impact);
    var top := keys[a];
    low := keys[c];
    assert forall g :: g in impact ==> impact[low] <= impact[g] <= impact[top] by {
      forall g | g in impact ensures impact[low] <= impact[g] <= impact[top] {
        var j :| 0 <= j < |keys| && keys[j] == g;
      }
    }
    TopScoresSpread(d, top, low);
    ScoreBoundedBySpread(d, keys[b], impact[low]);
    assert score[top] == impact[top] - impact[low];
    assert score[top] <= score[keys[b]] <= impact[keys[b]] - impact[low];
    assert impact[keys[b]] == impact[top];
    assert !(b < a);
    assert !(a < b);
  }

  lemma SpreadPositiveIff(values: map<FencePlacing, int>, top: FencePlacing, low: FencePlacing)
    requires top in values && low in values
    requires forall g :: g in values ==> values[low] <= values[g] <= values[top]
    ensures values[top] - values[low] > 0 <==> exists g, h :: g in values && h in values && values[g] != values[h]
  {
  }

  /** Whether the maximising branch plays a fence: for a sole candidate,
      exactly when its impact is positive; otherwise exactly when the
      candidates' impacts are not all equal. */
  lemma BestScorePositiveIff(d: Dict<FencePlacing>)
    requires d.Valid() && d.keys != []
    ensures |d.keys| == 1 ==> (OnePlyScores(d)[BestFence(d)] > 0 <==> d.values[d.keys[0]] > 0)
    ensures |d.keys| >= 2 ==>
      (OnePlyScores(d)[BestFence(d)] > 0 <==>
       exists g, h :: g in d.values && h in d.values && d.values[g] != d.values[h])
  {
    var best := BestFence(d);
    var score := OnePlyScores(d)[best];
    if |d.keys| == 1 {
      assert best == d.keys[0];
      OnePlyScoreAgainstWorstOther(d, best);
    } else {
      var lo := BestFenceHasMaximalImpact(d);
      SpreadPositiveIff(d.values, best, lo);
    }
  }

  /** Impacts 3 and 1 give one-ply scores 2 and -2, and the first placing is chosen. */
  lemma TwoCandidateExample(a: FencePlacing, b: FencePlacing)
    requires a != b
    ensures var d := Dict([a, b], map[a := 3, b := 1]);
      d.Valid() && OnePlyScore(d, a) == 2 && OnePlyScore(d, b) == -2 && BestFence(d) == a
  {
    var d := Dict([a, b], map[a := 3, b := 1]);
    assert d.keys[1..] == [b] && d.keys[1..][1..] == [];
    assert OtherImpacts(d.keys, d.values, a) == [] + OtherImpacts([b], d.values, a) == [1];
    assert OtherImpacts(d.keys, d.values, b) == [3] + OtherImpacts([b], d.values, b) == [3];
  }

  // ------------------------------------------------------------- fallback

  /** The random fallback of placeFenceRandomly: up to ten re-samples of a
      blocking fence, then a random pawn move if the counter ran out.  Returns
      the action and the next unused draw number. */
  function RandomFenceFallback(bot: Bot, board: Board, draws: Draws, k: nat): (Result<Action>, nat)
  {
    var fences := board.storedValidFencePlacings;
    if fences == [] then (RandomPawnMove(bot, board, draws, k), k + 1)
    else
      var s := Resample(fences, board.blocking, draws, k + 1, Choice(fences, draws, k), 10);
      if s.attemptsLeft == 0 then (RandomPawnMove(bot, board, draws, s.next), s.next + 1)
      else (Ok(Place(s.fence)), s.next)
  }

  /** No legal placing gives a pawn move; a fence comes out legal and not
      blocking after at most ten samples; anything else is the random
      pawn move drawn last, even when the last fence sample was not blocking. */
  lemma RandomFenceFallbackSound(bot: Bot, board: Board, draws: Draws, k: nat)
    ensures var r := RandomFenceFallback(bot, board, draws, k);
      (board.storedValidFencePlacings == [] ==> r == (RandomPawnMove(bot, board, draws, k), k + 1)) &&
      (r.0.Ok? && r.0.value.Place? ==>
        r.0.value.fencePlacing in board.storedValidFencePlacings &&
        !board.IsFencePlacingBlocking(r.0.value.fencePlacing) && r.1 <= k + 10) &&
      k < r.1 <= k + 12 &&
      (!(r.0.Ok? && r.0.value.Place?) ==> r.0 == RandomPawnMove(bot, board, draws, r.1 - 1))
  {
    var fences := board.storedValidFencePlacings;
    if fences != [] {
      ResampleSpendsOneDrawPerAttempt(fences, board.blocking, draws, k + 1, Choice(fences, draws, k), 10);
    }
  }

  /** The fallback can drop a non-blocking sample: with placings [a, b] where
      only a blocks and no impact computable, a first draw of a, nine re-draws
      of a and a tenth re-draw of b exhaust the counter, so the bot moves its
      pawn instead of playing b. */
  lemma {:induction false} FallbackDropsLastNonBlockingSample(a: FencePlacing, b: FencePlacing, m: PawnMove, bot: Bot)
    requires a != b
    ensures var board := Board(map[bot.pawnCoord := [m]], [a, b], {a}, map[], map[]);
            var draws: Draws := j => if j == 10 then 1 else 0;
            !board.IsFencePlacingBlocking(Choice([a, b], draws, 10)) &&
            PlaceFenceOutcome(bot, board, draws, 0) == (Ok(Move(m)), 12)
  {
  }

  /** The whole of placeFenceRandomly: the best one-ply placing when its
      score is positive, the random fallback otherwise. */
  function PlaceFenceOutcome(bot: Bot, board: Board, draws: Draws, k: nat): (Result<Action>, nat)
  {
    var d := ScoredImpacts(bot.name, board, board.storedValidFencePlacings);
    if d.keys != [] && OnePlyScores(d)[BestFence(d)] > 0 then (Ok(Place(BestFence(d))), k)
    else RandomFenceFallback(bot, board, draws, k)
  }

  /** The maximising branch never asks whether its choice is blocking: on a
      board whose impact oracle answers for a blocking placing (so one that
      breaks Board.Valid()), a sole candidate of positive global impact is
      played although it blocks. */
  lemma {:induction false} MaximiserPlaysBlockingWhenOracleAnswers(a: FencePlacing, bot: Bot, draws: Draws)
    requires bot.name != "x"
    ensures var board := Board(map[], [a], {a}, map[a := [("x", 3)]], map[]);
            board.IsFencePlacingBlocking(a) && !board.Valid() &&
            PlaceFenceOutcome(bot, board, draws, 0) == (Ok(Place(a)), 0)
  {
    var board := Board(map[], [a], {a}, map[a := [("x", 3)]], map[]);
    assert [a][..0] == [];
    assert ScoredImpacts(bot.name, board, [a][..0]) == EmptyDict();
    var d := ScoredImpacts(bot.name, board, [a]);
    assert d == EmptyDict<FencePlacing>().Insert(a, SignedSum(bot.name, [("x", 3)]));
    assert d.keys == [a] && d.values == map[a := 3];
    assert OtherImpacts(d.keys, d.values, a) == [];
    assert OnePlyScore(d, a) == 3;
  }

  /** A fence placeFenceRandomly plays is a legal placing, and under the
      board's contract a non-blocking one; at most twelve draws are used. */
  lemma PlaceFenceOutcomeSound(bot: Bot, board: Board, draws: Draws, k: nat)
    ensures var r := PlaceFenceOutcome(bot, board, draws, k);
      (r.0.Ok? && r.0.value.Place? ==> r.0.value.fencePlacing in board.storedValidFencePlacings) &&
      (board.Valid() && r.0.Ok? && r.0.value.Place? ==> !board.IsFencePlacingBlocking(r.0.value.fencePlacing)) &&
      k <= r.1 <= k + 12
  {
    RandomFenceFallbackSound(bot, board, draws, k);
  }

  /** With two scoreable placings or more whose impacts differ, the bot plays
      the first placing of maximal global impact and draws nothing. */
  lemma MaximisingBranchChoosesMaximalImpact(bot: Bot, board: Board, draws: Draws, k: nat)
    requires var d := ScoredImpacts(bot.name, board, board.storedValidFencePlacings);
      |d.keys| >= 2 && exists g, h :: g in d.values && h in d.values && d.values[g] != d.values[h]
    ensures var d := ScoredImpacts(bot.name, board, board.storedValidFencePlacings);
      PlaceFenceOutcome(bot, board, draws, k) == (Ok(Place(d.keys[ArgMaxIndex(d.keys, d.values)])), k)
  {
    var d := ScoredImpacts(bot.name, board, board.storedValidFencePlacings);
    BestScorePositiveIff(d);
    var _ := BestFenceHasMaximalImpact(d);
  }

  /** When every scored placing has the same impact (or none is scored), the
      maximising branch is skipped and the random fallback decides. */
  lemma EqualImpactsFallBack(bot: Bot, board: Board, draws: Draws, k: nat)
    requires var d := ScoredImpacts(bot.name, board, board.storedValidFencePlacings);
      |d.keys| != 1 && forall g, h :: g in d.values && h in d.values ==> d.values[g] == d.values[h]
    ensures PlaceFenceOutcome(bot, board, draws, k) == RandomFenceFallback(bot, board, draws, k)
  {
    var d := ScoredImpacts(bot.name, board, board.storedValidFencePlacings);
    if d.keys != [] {
      BestScorePositiveIff(d);
    }
  }

  /** The fallback block of placeFenceRandomly, with its re-sampling loop. */
  method FallbackFence(bot: Bot, board: Board, draws: Draws, k: nat) returns (r: Result<Action>, next: nat)
    ensures (r, next) == RandomFenceFallback(bot, board, draws, k)
  {
    var fences := board.storedValidFencePlacings;
    if fences == [] {
      return RandomPawnMove(bot, board, draws, k), k + 1;
    }
    var attempts := 10;
    var randomFencePlacing := Choice(fences, draws, k);
    next := k + 1;
    ghost var outcome := Resample(fences, board.blocking, draws, next, randomFencePlacing, attempts);
    while board.IsFencePlacingBlocking(randomFencePlacing) && attempts > 0
      invariant Resample(fences, board.blocking, draws, next, randomFencePlacing, attempts) == outcome
      decreases attempts
    {
      randomFencePlacing := Choice(fences, draws, next);
      next := next + 1;
      attempts := attempts - 1;
    }
    assert outcome == Sample(randomFencePlacing, next, attempts);
    if attempts == 0 {
      r, next := RandomPawnMove(bot, board, draws, next), next + 1;
    } else {
      r := Ok(Place(randomFencePlacing));
    }
  }

  method PlaceFenceRandomly(bot: Bot, board: Board, draws: Draws, k: nat) returns (r: Result<Action>, next: nat)
    ensures (r, next) == PlaceFenceOutcome(bot, board, draws, k)
  {
    var fencePlacingImpacts := ScoreFencePlacings(bot, board);
    if fencePlacingImpacts.keys != [] {
      var minimaxScores := MinimaxScores(fencePlacingImpacts);
      var bestFence := minimaxScores.keys[ArgMaxIndex(minimaxScores.keys, minimaxScores.values)];
      assert bestFence == BestFence(fencePlacingImpacts);
      if minimaxScores.values[bestFence] > 0 {
        return Ok(Place(bestFence)), k;
      }
    }
    r, next := FallbackFence(bot, board, draws, k);
  }

  // ----------------------------------------------------------------- play

  /** One turn: placeFenceRandomly behind the one-in-three guard, a random
      pawn move otherwise. */
  method Play(bot: Bot, board: Board, draws: Draws, k: nat) returns (r: Result<Action>, next: nat)
    ensures FenceAttempted(bot, board, draws, k) ==> (r, next) == PlaceFenceOutcome(bot, board, draws, k + 1)
    ensures !FenceAttempted(bot, board, draws, k) ==> r == RandomPawnMove(bot, board, draws, k + 1) && next == k + 2
    ensures r.Ok? && r.value.Place? ==>
      FenceAttempted(bot, board, draws, k) && r.value.fencePlacing in board.storedValidFencePlacings
    ensures board.Valid() && r.Ok? && r.value.Place? ==> !board.IsFencePlacingBlocking(r.value.fencePlacing)
  {
    if RandInt(0, 2, draws, k) == 0 && bot.remainingFences > 0 && |board.storedValidFencePlacings| > 0 {
      r, next := PlaceFenceRandomly(bot, board, draws, k + 1);
      PlaceFenceOutcomeSound(bot, board, draws, k + 1);
    } else {
      r, next := RandomPawnMove(bot, board, draws, k + 1), k + 2;
    }
  }
}
