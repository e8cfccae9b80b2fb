/**
 * The outcome rule of the game (class GameRules in rock-paper-scissors.js).
 *
 * Moves are identified by their position in an ordered list of N names.
 * For the computer's move at index a and the user's move at index b the
 * source takes the sign of ((a - b + half + N) % N) - half, half = floor(N/2):
 * zero is a draw, positive a win for the computer, negative a win for the user.
 * The verdicts are the source's own strings.
 */
module Rules {

  const Draw: string := "Draw"
  const ComputerWins: string := "Computer wins"
  const YouWin: string := "You win"

  /** No move name occurs twice (exact, case-sensitive comparison). */
  predicate Distinct(moves: seq<string>) {
    forall i, j :: 0 <= i < j < |moves| ==> moves[i] != moves[j]
  }

  /** Array.prototype.indexOf: the first position of `m` in `moves`, or -1 when absent. */
  function IndexOf(moves: seq<string>, m: string): (r: int)
    ensures -1 <= r < |moves|
    ensures r == -1 <==> m !in moves
    ensures 0 <= r ==> moves[r] == m && forall j :: 0 <= j < r ==> moves[j] != m
  {
    if |moves| == 0 then -1
    else if moves[0] == m then 0
    else
      var r := IndexOf(moves[1..], m);
      if r == -1 then -1 else r + 1
  }

  /** Math.sign on integers. */
  function Sign(x: int): (r: int)
    ensures r == 0 <==> x == 0
    ensures r == 1 <==> x > 0
    ensures r == -1 <==> x < 0
  {
    if x > 0 then 1 else if x < 0 then -1 else 0
  }

  /** JavaScript's `%` operator: the remainder takes the sign of the dividend. */
  function TruncRem(x: int, n: int): (r: int)
    requires n > 0
    ensures -n < r < n
    ensures x >= 0 ==> r >= 0 && r == x % n
    ensures x < 0 ==> r <= 0 && -r == (-x) % n
  {
    if x >= 0 then x % n else -((-x) % n)
  }

  /** JavaScript's remainder differs from its dividend by a multiple of the divisor. */
  lemma TruncRemCongruent(x: int, n: int)
    requires n > 0
    ensures (x - TruncRem(x, n)) % n == 0
  {
    if x >= 0 {
      ModIs(x - x % n, n, x / n);
    } else {
      ModIs(x + (-x) % n, n, -((-x) / n));
    }
  }

  /** Math.floor(n / 2), characterised without division. */
  function Half(n: nat): (h: nat)
    ensures 2 * h <= n < 2 * h + 2
  {
    n / 2
  }

  /** The re-centred cyclic distance of line 25, before its sign is taken; `half` is `halfMoves`. */
  function Centred(a: int, b: int, n: nat, half: int): int
    requires n > 0
  {
    TruncRem(a - b + half + n, n) - half
  }

  /**
   * The verdict for the computer's move at index `a` and the user's at index
   * `b`, with `half` the rules' halfMoves (floor(n/2) in every instance).
   */
  function Judge(a: int, b: int, n: nat, half: int): (v: string)
    requires n > 0
    ensures v == Draw || v == ComputerWins || v == YouWin
  {
    var s := Sign(Centred(a, b, n, half));
    if s == 0 then Draw else if s > 0 then ComputerWins else YouWin
  }

  /** An instance of GameRules: the move list, its length and half its length. */
  datatype GameRules = GameRules(moves: seq<string>, numberOfMoves: nat, halfMoves: nat)

  /** The constructor of GameRules. */
  function NewGameRules(moves: seq<string>): (r: GameRules)
    ensures r.moves == moves && r.numberOfMoves == |moves|
    ensures 2 * r.halfMoves <= r.numberOfMoves < 2 * r.halfMoves + 2
  {
    GameRules(moves, |moves|, |moves| / 2)
  }

  /** GameRules.determineOutcome: look both names up with indexOf, then judge the indices. */
  function DetermineOutcome(rules: GameRules, computerMove: string, userMove: string): (v: string)
    requires rules == NewGameRules(rules.moves) && rules.numberOfMoves > 0
    ensures v == Draw || v == ComputerWins || v == YouWin
  {
    Judge(IndexOf(rules.moves, computerMove), IndexOf(rules.moves, userMove), rules.numberOfMoves, rules.halfMoves)
  }

  /** The reference rule: the verdict by the cyclic distance d = (a - b) mod n. */
  function ByDistance(d: int, n: nat): string {
    if d == 0 then Draw else if d <= (n - 1) / 2 then ComputerWins else YouWin
  }

  /** The three verdicts are different strings. */
  lemma VerdictsDiffer()
    ensures Draw != ComputerWins && Draw != YouWin && ComputerWins != YouWin
  {
    assert |Draw| == 4 && |ComputerWins| == 13 && |YouWin| == 7;
  }

  /** Swaps the two winning verdicts; a draw stays a draw. */
  function Flip(v: string): string {
    if v == ComputerWins then YouWin else if v == YouWin then ComputerWins else v
  }

  // ---------------------------------------------------------------------------
  // Arithmetic of line 25

  lemma {:induction false} MulAtLeast(m: int, n: int)
    requires m >= 1 && n > 0
    ensures m * n >= n
  {
    if m > 1 {
      MulAtLeast(m - 1, n);
      assert m * n == (m - 1) * n + n;
    }
  }

  /** x % n is x - q*n when that lies in [0, n). */
  lemma ModIs(x: int, n: int, q: int)
    requires n > 0 && 0 <= x - q * n < n
    ensures x % n == x - q * n
  {
    var k := x / n;
    if k > q {
      MulAtLeast(k - q, n);
    } else if k < q {
      MulAtLeast(q - k, n);
    }
  }

  /** The cyclic distance from `b` forward to `a`, written without division. */
  function Dist(a: int, b: int, n: nat): (d: int)
    requires 0 <= a < n && 0 <= b < n
    ensures 0 <= d < n
  {
    if a >= b then a - b else a - b + n
  }

  /** Dist is the mathematical remainder (a - b) mod n. */
  lemma DistIsMod(a: int, b: int, n: nat)
    requires 0 <= a < n && 0 <= b < n
    ensures Dist(a, b, n) == (a - b) % n
  {
    if a >= b {
      ModIs(a - b, n, 0);
    } else {
      ModIs(a - b, n, -1);
    }
  }

  /**
   * The left operand of `%` on line 25 is never negative when both indices
   * are at least -1 (so even an absent name gives one), is positive for two
   * present names, and JavaScript's `%` then agrees with the mathematical
   * remainder. The re-centred value lies in [-half, n - 1 - half], which for
   * odd n is [-half, half].
   */
  lemma OperandNonNegative(a: int, b: int, n: nat)
    requires n > 0 && -1 <= a < n && -1 <= b < n
    ensures a - b + Half(n) + n >= 0
    ensures 0 <= a && 0 <= b ==> a - b + Half(n) + n > 0
    ensures TruncRem(a - b + Half(n) + n, n) == (a - b + Half(n) + n) % n
    ensures 0 <= Centred(a, b, n, Half(n)) + Half(n) && Centred(a, b, n, Half(n)) + Half(n) < n
    ensures n % 2 == 1 ==> Centred(a, b, n, Half(n)) <= Half(n)
  {
  }

  /**
   * The formula of line 25 agrees with the reference rule by cyclic distance:
   * the computer wins iff the distance lies in [1, (n-1)/2], that is iff the
   * user's move is among the (n-1)/2 moves that cyclically precede the
   * computer's.
   */
  lemma JudgeIsByDistance(a: int, b: int, n: nat)
    requires 0 <= a < n && 0 <= b < n
    ensures Judge(a, b, n, Half(n)) == ByDistance(Dist(a, b, n), n)
  {
    var h, d := Half(n), Dist(a, b, n);
    var x := a - b + h + n;
    var q := if a >= b then 1 else 0;
    assert x == d + h + q * n;
    if d + h < n {
      ModIs(x, n, q);
    } else {
      ModIs(x, n, q + 1);
    }
  }

  /** A draw happens exactly when both indices are the same. */
  lemma DrawIffSameIndex(a: int, b: int, n: nat)
    requires 0 <= a < n && 0 <= b < n
    ensures Judge(a, b, n, Half(n)) == Draw <==> a == b
  {
    JudgeIsByDistance(a, b, n);
  }

  /** The computer wins exactly when (a - b) mod n lies in [1, (n-1)/2]; the user wins otherwise. */
  lemma ComputerWinsIff(a: int, b: int, n: nat)
    requires 0 <= a < n && 0 <= b < n
    ensures Judge(a, b, n, Half(n)) == ComputerWins <==> 1 <= (a - b) % n <= (n - 1) / 2
    ensures Judge(a, b, n, Half(n)) == YouWin <==> (n - 1) / 2 < (a - b) % n
  {
    JudgeIsByDistance(a, b, n);
    DistIsMod(a, b, n);
  }

  /** For an odd number of moves, swapping the two moves swaps the winner. */
  lemma SwapFlips(a: int, b: int, n: nat)
    requires 0 <= a < n && 0 <= b < n && n % 2 == 1
    ensures Judge(b, a, n, Half(n)) == Flip(Judge(a, b, n, Half(n)))
  {
    VerdictsDiffer();
    JudgeIsByDistance(a, b, n);
    JudgeIsByDistance(b, a, n);
  }

  /**
   * For an even number of moves the rule is not antisymmetric: two moves half
   * a cycle apart each lose to the other. This is why the list must be odd.
   */
  lemma EvenCountNotAntisymmetric(n: nat)
    requires n >= 2 && n % 2 == 0
    ensures Judge(0, n / 2, n, Half(n)) == YouWin && Judge(n / 2, 0, n, Half(n)) == YouWin
  {
    JudgeIsByDistance(0, n / 2, n);
    JudgeIsByDistance(n / 2, 0, n);
  }

  // ---------------------------------------------------------------------------
  // How many moves each move beats

  /** The verdicts of the computer's move `a` against every user move, in list order. */
  function VerdictRow(a: int, n: nat): (row: seq<string>)
    requires 0 <= a < n
    ensures |row| == n
  {
    seq(n, b requires 0 <= b < n => Judge(a, b, n, Half(n)))
  }

  function Repeat(v: string, k: nat): (s: seq<string>)
    ensures |s| == k
  {
    seq(k, _ => v)
  }

  lemma {:induction false} RepeatCount(v: string, w: string, k: nat)
    ensures multiset(Repeat(v, k))[w] == if v == w then k else 0
  {
    if k > 0 {
      assert Repeat(v, k) == Repeat(v, k - 1) + [v];
      RepeatCount(v, w, k - 1);
    }
  }

  /** Moving the computer's move one step along the list rotates its row right by one. */
  lemma RowRotates(a: int, n: nat)
    requires 0 <= a && a + 1 < n
    ensures VerdictRow(a + 1, n) == [VerdictRow(a, n)[n - 1]] + VerdictRow(a, n)[..n - 1]
  {
    var r, r' := VerdictRow(a, n), VerdictRow(a + 1, n);
    forall b | 0 <= b < n
      ensures r'[b] == ([r[n - 1]] + r[..n - 1])[b]
    {
      JudgeIsByDistance(a + 1, b, n);
      if b == 0 {
        JudgeIsByDistance(a, n - 1, n);
      } else {
        JudgeIsByDistance(a, b - 1, n);
      }
    }
  }

  lemma {:induction false} RowsArePermutations(a: int, n: nat)
    requires 0 <= a < n
    ensures multiset(VerdictRow(a, n)) == multiset(VerdictRow(0, n))
  {
    if a > 0 {
      var p := a - 1;
      RowsArePermutations(p, n);
      RowRotates(p, n);
      var r := VerdictRow(p, n);
      RotationKeepsElements(r);
      assert VerdictRow(a, n) == [r[n - 1]] + r[..n - 1];
    }
  }

  /** Moving the last element to the front keeps the same elements. */
  lemma RotationKeepsElements<T>(r: seq<T>)
    requires |r| > 0
    ensures multiset([r[|r| - 1]] + r[..|r| - 1]) == multiset(r)
  {
    assert r == r[..|r| - 1] + [r[|r| - 1]];
  }

  /** The row of the first move: a draw, then the moves it loses to, then the ones it beats. */
  lemma FirstRow(n: nat)
    requires n > 0
    ensures VerdictRow(0, n) == [Draw] + Repeat(YouWin, n - 1 - (n - 1) / 2) + Repeat(ComputerWins, (n - 1) / 2)
  {
    var r := VerdictRow(0, n);
    var s := [Draw] + Repeat(YouWin, n - 1 - (n - 1) / 2) + Repeat(ComputerWins, (n - 1) / 2);
    forall b | 0 <= b < n
      ensures r[b] == s[b]
    {
      JudgeIsByDistance(0, b, n);
    }
  }

  /**
   * Every move draws once (against itself), beats (n-1)/2 moves and loses to
   * the remaining n - 1 - (n-1)/2; for odd n both counts are floor(n/2).
   */
  lemma EachMoveBeatsHalf(a: int, n: nat)
    requires 0 <= a < n
    ensures multiset(VerdictRow(a, n))[Draw] == 1
    ensures multiset(VerdictRow(a, n))[ComputerWins] == (n - 1) / 2
    ensures multiset(VerdictRow(a, n))[YouWin] == n - 1 - (n - 1) / 2
    ensures n % 2 == 1 ==> multiset(VerdictRow(a, n))[ComputerWins] == Half(n)
    ensures n % 2 == 1 ==> multiset(VerdictRow(a, n))[YouWin] == Half(n)
  {
    RowsArePermutations(a, n);
    FirstRow(n);
    var y, c := Repeat(YouWin, n - 1 - (n - 1) / 2), Repeat(ComputerWins, (n - 1) / 2);
    assert multiset(VerdictRow(0, n)) == multiset([Draw]) + multiset(y) + multiset(c);
    RepeatCount(YouWin, Draw, |y|);
    RepeatCount(YouWin, YouWin, |y|);
    RepeatCount(YouWin, ComputerWins, |y|);
    RepeatCount(ComputerWins, Draw, |c|);
    RepeatCount(ComputerWins, YouWin, |c|);
    RepeatCount(ComputerWins, ComputerWins, |c|);
  }

  // ---------------------------------------------------------------------------
  // The same facts stated on move names

  /** In a list without duplicates, indexOf finds every element at its own position. */
  lemma IndexOfDistinct(moves: seq<string>, i: int)
    requires Distinct(moves) && 0 <= i < |moves|
    ensures IndexOf(moves, moves[i]) == i
  {
  }

  /** On a list without duplicates, determineOutcome judges the two positions. */
  lemma OutcomeOfPositions(moves: seq<string>, i: int, j: int)
    requires Distinct(moves) && 0 <= i < |moves| && 0 <= j < |moves|
    ensures DetermineOutcome(NewGameRules(moves), moves[i], moves[j]) == Judge(i, j, |moves|, Half(|moves|))
  {
    IndexOfDistinct(moves, i);
    IndexOfDistinct(moves, j);
  }

  /** Over a list without duplicates two moves draw exactly when they are the same move. */
  lemma DrawIffSameMove(moves: seq<string>, x: string, y: string)
    requires Distinct(moves) && x in moves && y in moves
    ensures DetermineOutcome(NewGameRules(moves), x, y) == Draw <==> x == y
  {
    var i, j := IndexOf(moves, x), IndexOf(moves, y);
    OutcomeOfPositions(moves, i, j);
    DrawIffSameIndex(i, j, |moves|);
  }

  /** Over an odd list without duplicates, swapping computer and user swaps the winner. */
  lemma SwapMovesFlips(moves: seq<string>, x: string, y: string)
    requires Distinct(moves) && |moves| % 2 == 1 && x in moves && y in moves
    ensures DetermineOutcome(NewGameRules(moves), y, x) == Flip(DetermineOutcome(NewGameRules(moves), x, y))
  {
    var i, j := IndexOf(moves, x), IndexOf(moves, y);
    OutcomeOfPositions(moves, i, j);
    OutcomeOfPositions(moves, j, i);
    SwapFlips(i, j, |moves|);
  }

  /** Classic rock-paper-scissors: rock beats scissors, scissors beats paper, paper beats rock. */
  lemma ClassicGame()
    ensures var rules := NewGameRules(["rock", "paper", "scissors"]);
      && DetermineOutcome(rules, "rock", "scissors") == ComputerWins
      && DetermineOutcome(rules, "scissors", "paper") == ComputerWins
      && DetermineOutcome(rules, "paper", "rock") == ComputerWins
      && DetermineOutcome(rules, "scissors", "rock") == YouWin
  {
    var moves := ["rock", "paper", "scissors"];
    assert moves[0][0] == 'r' && moves[1][0] == 'p' && moves[2][0] == 's';
    assert Distinct(moves);
    OutcomeOfPositions(moves, 0, 2);
    JudgeIsByDistance(0, 2, |moves|);
    OutcomeOfPositions(moves, 2, 1);
    JudgeIsByDistance(2, 1, |moves|);
    OutcomeOfPositions(moves, 1, 0);
    JudgeIsByDistance(1, 0, |moves|);
    OutcomeOfPositions(moves, 2, 0);
    JudgeIsByDistance(2, 0, |moves|);
  }

  /** Five moves a..e: a beats the two that precede it cyclically (d, e) and loses to b and c. */
  lemma FiveMoveGame()
    ensures var rules := NewGameRules(["a", "b", "c", "d", "e"]);
      && DetermineOutcome(rules, "a", "d") == ComputerWins
      && DetermineOutcome(rules, "a", "e") == ComputerWins
      && DetermineOutcome(rules, "a", "b") == YouWin
      && DetermineOutcome(rules, "a", "c") == YouWin
  {
    var moves := ["a", "b", "c", "d", "e"];
    assert Distinct(moves);
    OutcomeOfPositions(moves, 0, 3);
    JudgeIsByDistance(0, 3, |moves|);
    OutcomeOfPositions(moves, 0, 4);
    JudgeIsByDistance(0, 4, |moves|);
    OutcomeOfPositions(moves, 0, 1);
    JudgeIsByDistance(0, 1, |moves|);
    OutcomeOfPositions(moves, 0, 2);
    JudgeIsByDistance(0, 2, |moves|);
  }
}
